/** When a poll refuses the files it finds, in terms of the files themselves. */
module PollFaults {
  import opened Prelude
  import opened Text
  import opened ArenaState
  import opened ReducerSpec
  import opened LogRecords
  import opened LineGrammar
  import opened LogReader
  import opened ObserverSpec

  const EVIDENCE: nat := 64

  /** Where the evidence of a file starts that was read up to this offset. */
  function EvidenceStart(end: nat): nat {
    if end < EVIDENCE then 0 else end - EVIDENCE
  }

  /** The file still holds what was read: the same file, no shorter than the last complete line that was read, and with
      the same last bytes before its end. */
  predicate Continues(before: FileView, now: FileView) {
    var end := LastLineEnd(before.bytes);
    && now.identity == before.identity
    && end <= |now.bytes|
    && now.bytes[EvidenceStart(end)..end] == before.bytes[EvidenceStart(end)..end]
  }

  predicate Unbroken(before: Files, now: Files, c: Component) {
    (c in before <==> c in now) && (c in before ==> Continues(before[c], now[c]))
  }

  lemma AttachedEnd(c: Component, bytes: string)
    ensures NextCursor(c, bytes, START_CURSOR).byteOffset == LastLineEnd(bytes)
  {
    hide DurableEnd, LastLineEnd, Records;
    DurableEndIsLastLineEnd(bytes, 0);
  }

  /** What the attached observer remembers of one file. */
  lemma Remembered(session: Session, slots: Option<U16>, before: Files, c: Component)
    requires before != map[]
    ensures var o := AttachFull(session, slots, before).value;
      && (c in o.identities <==> c in before) && (c in before ==> o.identities[c] == before[c].identity)
      && (c in before ==>
            var end := LastLineEnd(before[c].bytes);
            && CursorAt(o.cursors, c).byteOffset == end
            && (c in o.witnesses <==> end > 0) && (end > 0 ==> o.witnesses[c] == WitnessAt(before[c].bytes, end)))
  {
    hide Drained, WitnessAt, LastLineEnd, EndCursor, FreshReplay;
    if c in before {
      AttachedEnd(c, before[c].bytes);
    }
  }

  lemma EvidenceMatches(before: string, now: string, end: nat)
    requires end <= |before|
    ensures WitnessMatches(now, WitnessAt(before, end))
       <==> end <= |now| && now[EvidenceStart(end)..end] == before[EvidenceStart(end)..end]
  {
  }

  /** The complaint about one component, by what became of its file. */
  lemma FaultIs(session: Session, slots: Option<U16>, before: Files, now: Files, c: Component)
    requires before != map[]
    ensures var fault := FaultAt(AttachFull(session, slots, before).value, now, c);
      && (fault.None? <==> Unbroken(before, now, c))
      && (fault == Some(Disappeared(c)) <==> c in before && c !in now)
      && (fault == Some(Appeared(c)) <==> c !in before && c in now)
      && (fault == Some(Replaced(c)) <==> c in before && c in now && now[c].identity != before[c].identity)
      && (fault == Some(Truncated(c)) <==>
            && c in before && c in now && now[c].identity == before[c].identity
            && |now[c].bytes| < LastLineEnd(before[c].bytes))
      && (fault.Some? ==> fault.value in {Disappeared(c), Appeared(c), Replaced(c), Truncated(c), ChangedBeforeCursor(c)})
  {
    hide AttachFull, LastLineEnd, WitnessAt, WitnessMatches;
    Remembered(session, slots, before, c);
    if c in before && c in now {
      var end := LastLineEnd(before[c].bytes);
      EvidenceMatches(before[c].bytes, now[c].bytes, end);
      assert end == 0 ==> now[c].bytes[EvidenceStart(end)..end] == before[c].bytes[EvidenceStart(end)..end];
    }
  }

  lemma {:induction false} FirstFaultIs(o: Observed, files: Files, from: nat)
    requires from <= 5
    ensures FirstFault(o, files, from).None? <==> forall i | from <= i < 5 :: FaultAt(o, files, COMPONENTS[i]).None?
    ensures FirstFault(o, files, from).Some? ==>
      exists i | from <= i < 5 ::
        && FirstFault(o, files, from) == FaultAt(o, files, COMPONENTS[i])
        && forall j | from <= j < i :: FaultAt(o, files, COMPONENTS[j]).None?
    decreases 5 - from
  {
    hide FaultAt;
    if from < 5 {
      FirstFaultIs(o, files, from + 1);
    }
  }

  lemma FaultsByComponent(o: Observed, files: Files)
    ensures FirstFault(o, files, 0).None? <==> forall c: Component :: FaultAt(o, files, c).None?
    ensures FirstFault(o, files, 0).Some? ==>
      exists c: Component ::
        && FirstFault(o, files, 0) == FaultAt(o, files, c)
        && forall earlier: Component | earlier.Rank() < c.Rank() :: FaultAt(o, files, earlier).None?
  {
    hide FaultAt, FirstFault;
    ComponentRanks();
    FirstFaultIs(o, files, 0);
    if FirstFault(o, files, 0).None? {
      forall c: Component ensures FaultAt(o, files, c).None? {
        assert COMPONENTS[c.Rank()] == c;
      }
    } else {
      var i :| 0 <= i < 5 && FirstFault(o, files, 0) == FaultAt(o, files, COMPONENTS[i])
        && forall j | 0 <= j < i :: FaultAt(o, files, COMPONENTS[j]).None?;
      forall earlier: Component | earlier.Rank() < COMPONENTS[i].Rank() ensures FaultAt(o, files, earlier).None? {
        assert COMPONENTS[earlier.Rank()] == earlier;
      }
    }
  }

  lemma PollFirstFault(session: Session, o: Observed, now: Files)
    ensures FirstFault(o, now, 0).Some? ==> Poll(session, o, now) == Err(FirstFault(o, now, 0).value)
    ensures FirstFault(o, now, 0).None? ==> Poll(session, o, now).Ok? || Poll(session, o, now).error.OutOfOrder?
  {
    hide FirstFault, InOrder, PolledState, PendingMerged;
  }

  lemma AllUnbroken(before: Files, now: Files)
    ensures (forall c: Component :: Unbroken(before, now, c))
       <==> now.Keys == before.Keys && forall c | c in before :: Continues(before[c], now[c])
  {
    hide Continues;
    if forall c: Component :: Unbroken(before, now, c) {
      forall c: Component ensures c in before.Keys <==> c in now.Keys {
        assert Unbroken(before, now, c);
      }
      forall c | c in before ensures Continues(before[c], now[c]) {
        assert Unbroken(before, now, c);
      }
    } else {
      var c: Component :| !Unbroken(before, now, c);
      assert now.Keys == before.Keys ==> (c in before.Keys <==> c in now.Keys);
    }
  }

  lemma AttachSucceeds(session: Session, slots: Option<U16>, files: Files)
    requires files != map[]
    ensures AttachFull(session, slots, files).Ok?
  {
    hide Drained, Witnesses, FreshReplay;
  }

  /** A poll after an attach takes the files if and only if they are the same files and each still holds, up to the last
      complete line that was read, the same last bytes. Otherwise it names the first component of which that is not so. */
  lemma FilesTakenIff(session: Session, slots: Option<U16>, before: Files, now: Files)
    requires before != map[]
    ensures AttachFull(session, slots, before).Ok?
    ensures var o := AttachFull(session, slots, before).value;
      var refused := Poll(session, o, now).Err? && !Poll(session, o, now).error.OutOfOrder?;
      && (!refused <==> now.Keys == before.Keys && forall c | c in before :: Continues(before[c], now[c]))
      && (refused ==>
            exists c: Component ::
              && Some(Poll(session, o, now).error) == FaultAt(o, now, c) && !Unbroken(before, now, c)
              && forall earlier: Component | earlier.Rank() < c.Rank() :: Unbroken(before, now, earlier))
  {
    hide AttachFull, FaultAt, FirstFault, Continues, Poll;
    AttachSucceeds(session, slots, before);
    var o := AttachFull(session, slots, before).value;
    forall c: Component
      ensures FaultAt(o, now, c).None? <==> Unbroken(before, now, c)
      ensures FaultAt(o, now, c) != Some(OutOfOrder)
    {
      FaultIs(session, slots, before, now, c);
    }
    FaultsByComponent(o, now);
    PollFirstFault(session, o, now);
    AllUnbroken(before, now);
    assert FirstFault(o, now, 0).None? <==> forall c: Component :: Unbroken(before, now, c);
  }
}
