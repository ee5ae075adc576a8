/** What a reducer checkpoint holds and when it is accepted again. */
module ReducerCheckpoint {
  import opened Prelude
  import opened Text
  import opened ArenaState
  import opened ReducerSpec

  /** Every field of the reducer; the consumed sources are deliberately not kept. */
  datatype Checkpoint = Checkpoint(
    snapshot: Snapshot,
    deckCounts: map<CardId, nat>,
    priorCounts: Option<map<CardId, nat>>,
    occurrences: map<CardId, U8>,
    deckEntities: map<nat, CardId>,
    gameCounts: map<CardId, nat>,
    gameEntities: map<nat, GameDeckEntity>,
    observations: map<CardId, seq<EventSource>>,
    configuredSlots: Option<U16>,
    inferredSlots: Option<U16>,
    policy: Option<RedraftPolicy>)

  datatype RestoreError =
    UnsupportedSchema | InvalidDeckCount | InvalidDeckEntity | InvalidProvenance | InvalidPolicy | SnapshotMismatch

  function CheckpointOf(s: ReducerState): Checkpoint {
    Checkpoint(s.snapshot, s.deckCounts, s.priorCounts, s.occurrences, s.deckEntities, s.gameCounts, s.gameEntities,
               s.observations, s.configuredSlots, s.inferredSlots, s.policy)
  }

  /** The reducer a checkpoint describes, before its projections are recomputed. */
  function Rebuilt(c: Checkpoint): ReducerState {
    ReducerState(c.snapshot, c.deckCounts, c.priorCounts, c.occurrences, c.deckEntities, c.gameCounts, c.gameEntities,
                 c.observations, c.configuredSlots, c.inferredSlots, c.policy)
  }

  predicate NamedSource(source: EventSource) {
    Trim(source.sessionId) != "" && Trim(source.component) != ""
  }

  predicate GoodCounts(counts: map<CardId, nat>) {
    forall id | id in counts :: IsRealCardId(id) && counts[id] > 0
  }

  predicate GoodEntities(entities: map<nat, CardId>) {
    forall e | e in entities :: IsRealCardId(entities[e])
  }

  predicate GoodProvenance(table: map<CardId, seq<EventSource>>) {
    forall id | id in table ::
      && IsRealCardId(id) && |table[id]| <= MAX_SOURCES_PER_CARD
      && forall source | source in table[id] :: NamedSource(source)
  }

  /** The first field-level defect found in a checkpoint. */
  function Defect(c: Checkpoint): Option<RestoreError> {
    if c.snapshot.schemaVersion != SNAPSHOT_SCHEMA_VERSION then Some(UnsupportedSchema)
    else if !GoodCounts(c.deckCounts) then Some(InvalidDeckCount)
    else if !GoodEntities(c.deckEntities) then Some(InvalidDeckEntity)
    else if !GoodProvenance(c.observations) then Some(InvalidProvenance)
    else if c.policy.Some? && !c.policy.value.Valid() then Some(InvalidPolicy)
    else None
  }

  ghost function Restore(c: Checkpoint): Result<ReducerState, RestoreError> {
    var defect := Defect(c);
    if defect.Some? then Err(defect.value)
    else
      var synced := Sync(Rebuilt(c));
      if synced.snapshot != c.snapshot then Err(SnapshotMismatch) else Ok(synced)
  }
}
