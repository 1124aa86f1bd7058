/**
 * Facts that longer proofs only hand on are wrapped in predicates of the form
 * `forall k {:trigger Key(layer, k)} :: Key(layer, k) ==> fact`. The solver sees what is inside only where
 * the proof says `assert Key(layer, 0)`; each layer of the proofs has a key of its own.
 */
module Sealing {
  datatype Layer = BufferFacts | StreamFacts | HeapFacts | SiftFacts | SketchFacts | WalkFacts | TableFacts | EntryFacts | SumFacts
    | ShareFacts | ChainFacts | StorageFacts | PartFacts | OrderFacts | BuildFacts | MachineFacts | EmissionFacts

  ghost predicate Key(layer: Layer, k: int) {
    true
  }
}
