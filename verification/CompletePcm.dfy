/**
  Values exchanged by the complete-PCM capture (include/complete_pcm_input.hpp,
  include/read_policy.hpp): what a job asks for and the states it goes through.
*/
module CompletePcm {
  import opened Basics
  import opened DiscTocs

  const CHUNK_BYTES: int := 16384
  const RESULT_LIMIT: int := 65536

  datatype Profile = Profile(canonical: string, algorithm: string, version: string,
                             stateBytes: nat, maximumResultBytes: nat)

  datatype Identity = Identity(sessionId: string, jobId: nat, discGeneration: nat, readerIncarnation: nat,
                               policyRevision: nat, offsetSamples: Option<int>, profile: Profile,
                               deviceObservationGeneration: nat)

  datatype ReadMode = Single | Repeat

  datatype ReadPolicy = ReadPolicy(mode: ReadMode, regionFrames: nat, requiredMatches: nat,
                                   maximumAttempts: nat, timeBudgetMs: nat)

  datatype Plan = Plan(toc: DiscToc, identity: Identity, policy: ReadPolicy, duration: int)

  datatype InputState = Collecting | Prepared | Complete | Incomplete | Invalid

  predicate Terminal(state: InputState) { state == Incomplete || state == Invalid }

  /** CD frames asked of the reader at a time. */
  function BlockFrames(policy: ReadPolicy): nat {
    if policy.mode == Single then 15 else policy.regionFrames
  }
}
