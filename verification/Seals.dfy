/**
  Invariants of several objects are kept sealed: a sealed invariant is stated for
  every `n` with `Seal(n)`, which always holds, so the solver carries the invariant
  around as a whole and looks inside only where its own seal is mentioned.
 */
module Seals {

  ghost predicate MoveSeal(n: nat) {
    true
  }

  ghost predicate HistorySeal(n: nat) {
    true
  }

  ghost predicate FoundSeal(n: nat) {
    true
  }

  ghost predicate CountSeal(n: nat) {
    true
  }

  ghost predicate MirrorSeal(n: nat) {
    true
  }

  ghost predicate MallocSeal(n: nat) {
    true
  }

  ghost predicate EpochsSeal(n: nat) {
    true
  }

  ghost predicate QueueSeal(n: nat) {
    true
  }

  ghost predicate AgreeSeal(n: nat) {
    true
  }

  ghost predicate IndexSeal(n: nat) {
    true
  }

  ghost predicate TrailSeal(n: nat) {
    true
  }

  ghost predicate RecountSeal(n: nat) {
    true
  }

  ghost predicate RunSeal(n: nat) {
    true
  }

  ghost predicate BooksSeal(n: nat) {
    true
  }
}
