/** A log on which the live attach and the complete history name different runs: after a Redraft boundary the
    history ignores a snapshot header that the live attach hydrates from. */
module PendingHeader {
  import opened Prelude
  import opened Text
  import opened ArenaState
  import opened ReducerSpec
  import opened LogRecords
  import opened ReverseSearch
  import opened LineGrammar
  import opened LogParser
  import opened LogReader
  import opened ObserverSpec
  import opened TailRun
  import TailAttach

  const PHRASE: string := "Got new redraft deck with ID:"

  const BOUNDARY: string := ON_REDRAFT_BEGIN + "-" + PHRASE + "1"

  const DRAFTING: string := "SetDraftMode -DRAFTING"

  /** A snapshot, a Redraft boundary, another snapshot and the mode line that completes it. */
  const PENDING: string := Header('5') + [LF] + BOUNDARY + [LF] + Header('7') + [LF] + DRAFTING + [LF]

  lemma PendingLengths()
    ensures PlainLine(BOUNDARY) && |BOUNDARY| == 45 && PlainLine(DRAFTING) && |DRAFTING| == 22
  {
  }

  lemma PendingLines()
    ensures |PENDING| == 101
    ensures PENDING[0..15] == Header('5') && PENDING[15] == LF && PENDING[0..16] == Header('5') + [LF]
    ensures PENDING[16..61] == BOUNDARY && PENDING[61] == LF && PENDING[16..62] == BOUNDARY + [LF]
    ensures PENDING[62..77] == Header('7') && PENDING[77] == LF && PENDING[62..78] == Header('7') + [LF]
    ensures PENDING[78..100] == DRAFTING && PENDING[100] == LF && PENDING[78..101] == DRAFTING + [LF]
  {
    hide Header, PlainLine;
    PlainTexts('5');
    PlainTexts('7');
    PendingLengths();
  }

  lemma PendingRecords()
    ensures |PENDING| == 101 && IsBoundary(PENDING, 62)
    ensures NewlineFrom(PENDING, 0) == Some(15) && NewlineFrom(PENDING, 16) == Some(61)
    ensures NewlineFrom(PENDING, 62) == Some(77) && NewlineFrom(PENDING, 78) == Some(100)
    ensures ArenaRecord(PENDING, 0, 15).message == Header('5') && ArenaRecord(PENDING, 16, 61).message == BOUNDARY
    ensures ArenaRecord(PENDING, 62, 77).message == Header('7') && ArenaRecord(PENDING, 78, 100).message == DRAFTING
  {
    hide ArenaRecord, NewlineFrom, Header, PlainLine;
    PlainTexts('5');
    PlainTexts('7');
    PendingLengths();
    PendingLines();
    RecordIs(PENDING, 0, 15, Header('5'));
    RecordIs(PENDING, 16, 61, BOUNDARY);
    RecordIs(PENDING, 62, 77, Header('7'));
    RecordIs(PENDING, 78, 100, DRAFTING);
  }

  // Classification.

  /** A pattern's literal holds a character that the message lacks. */
  lemma LacksCharacter(message: string, matcher: Matcher<ArenaLine>, literal: string, c: char)
    requires c in literal && c !in message
    requires forall s, i :: matcher(s, i).Some? ==> StartsAt(s, literal, i)
    ensures FirstMatch(message, 0, matcher).None?
  {
    var k :| 0 <= k < |literal| && literal[k] == c;
    forall i | 0 <= i <= |message| ensures !StartsAt(message, literal, i) {
      if i + |literal| <= |message| {
        assert message[i..i + |literal|][k] == message[i + k] && message[i + k] in message;
      }
    }
    PatternFound(message, matcher, literal);
  }

  lemma ModeMatches()
    ensures ModeSetAt(DRAFTING, 0) == Some(ModeSet("DRAFTING"))
  {
    assert StartsAt(DRAFTING, SET_DRAFT_MODE, 0);
    assert SkipSpaces(DRAFTING, 12) == 13 && StartsAt(DRAFTING, "-", 13) && SkipSpaces(DRAFTING, 14) == 14;
    assert DRAFTING[14..22] == "DRAFTING";
    SpanToEnd(DRAFTING, 14, IsModeChar);
  }

  lemma {:induction false} SpanToEnd(s: string, i: nat, p: char -> bool)
    requires i <= |s| && forall k | i <= k < |s| :: p(s[k])
    ensures RunEnd(s, i, p) == |s|
    decreases |s| - i
  {
    if i < |s| {
      SpanToEnd(s, i + 1, p);
    }
  }

  lemma DraftingLacks()
    ensures ':' !in DRAFTING && 'B' !in DRAFTING && 'C' !in DRAFTING && 'k' !in DRAFTING
  {
  }

  /** No other pattern occurs in a message without these characters. */
  lemma OnlyMode(message: string)
    requires ':' !in message && 'B' !in message && 'C' !in message && 'k' !in message
    ensures ClassifyArena(message) == if FirstMatch(message, 0, ModeSetAt).Some? then FirstMatch(message, 0, ModeSetAt).value
                                      else ArenaLine.Other
  {
    hide DraftDeckAt, RunBeginAt, RedraftBeginAt, HeroChosenAt, DeckContainsAt, ClientChoiceAt, ModeSetAt;
    assert FirstMatch(message, 0, DraftDeckAt).None? by { LacksCharacter(message, DraftDeckAt, DRAFT_DECK, ':'); }
    assert FirstMatch(message, 0, RunBeginAt).None? by { LacksCharacter(message, RunBeginAt, ON_BEGIN, 'B'); }
    assert FirstMatch(message, 0, RedraftBeginAt).None? by {
      LacksCharacter(message, RedraftBeginAt, ON_REDRAFT_BEGIN, 'B');
    }
    assert FirstMatch(message, 0, HeroChosenAt).None? by { LacksCharacter(message, HeroChosenAt, ON_CHOSEN, 'C'); }
    assert FirstMatch(message, 0, DeckContainsAt).None? by { LacksCharacter(message, DeckContainsAt, DRAFT_CARD, 'k'); }
    assert FirstMatch(message, 0, ClientChoiceAt).None? by {
      LacksCharacter(message, ClientChoiceAt, CLIENT_CHOOSES, 'C');
    }
  }

  lemma ModeLine()
    ensures ClassifyArena(DRAFTING) == ModeSet("DRAFTING")
  {
    hide ClassifyArena, ModeSetAt;
    DraftingLacks();
    OnlyMode(DRAFTING);
    ModeMatches();
    assert FirstMatch(DRAFTING, 0, ModeSetAt) == ModeSetAt(DRAFTING, 0);
  }

  lemma BoundaryMatches()
    ensures RedraftBeginAt(BOUNDARY, 0) == Some(RedraftBegin)
  {
    assert StartsAt(BOUNDARY, ON_REDRAFT_BEGIN, 0);
    assert SkipSpaces(BOUNDARY, 14) == 14 && StartsAt(BOUNDARY, "-", 14) && SkipSpaces(BOUNDARY, 15) == 15;
    assert BOUNDARY[15..44] == PHRASE && StartsAt(BOUNDARY, PHRASE, 15);
    assert SkipSpaces(BOUNDARY, 44) == 44;
    SpanToEnd(BOUNDARY, 44, IsDigit);
  }

  lemma BoundaryLine()
    ensures ClassifyArena(BOUNDARY) == RedraftBegin
  {
    hide DraftDeckAt, RunBeginAt, RedraftBeginAt, HeroChosenAt, DeckContainsAt, ClientChoiceAt, ModeSetAt;
    assert FirstMatch(BOUNDARY, 0, DraftDeckAt).None? by { AbsentPattern(BOUNDARY, DraftDeckAt, DRAFT_DECK); }
    assert FirstMatch(BOUNDARY, 0, RunBeginAt).None? by { NoRunBegin(); }
    BoundaryMatches();
    assert FirstMatch(BOUNDARY, 0, RedraftBeginAt) == RedraftBeginAt(BOUNDARY, 0);
  }

  lemma NoRunBegin()
    ensures FirstMatch(BOUNDARY, 0, RunBeginAt).None?
  {
    hide RunBeginAt;
    forall i | 0 <= i <= |BOUNDARY| ensures !StartsAt(BOUNDARY, ON_BEGIN, i) {
      if i + 7 <= |BOUNDARY| {
        assert BOUNDARY[i..i + 7][0] == BOUNDARY[i] && BOUNDARY[i..i + 7][2] == BOUNDARY[i + 2];
        assert i > 0 ==> BOUNDARY[i] != 'O';
      }
    }
    PatternFound(BOUNDARY, RunBeginAt, ON_BEGIN);
  }

  // Sentinels.

  lemma NoLetterO(digit: char)
    requires IsDigit(digit)
    ensures 'O' !in Header(digit) && 'O' !in DRAFTING && 'O' !in BOUNDARY[1..]
  {
  }

  lemma NoRunStart()
    ensures NaiveLastLine(PENDING, ON_BEGIN).None?
  {
    hide Header;
    PendingLines();
    NoLetterO('5');
    NoLetterO('7');
    forall i | 0 <= i < 101 && i != 16 ensures PENDING[i] != 'O' {
      if i < 15 {
        assert PENDING[i] == Header('5')[i];
      } else if 16 <= i < 61 {
        assert PENDING[i] == BOUNDARY[i - 16];
      } else if 62 <= i < 77 {
        assert PENDING[i] == Header('7')[i - 62];
      } else if 78 <= i < 100 {
        assert PENDING[i] == DRAFTING[i - 78];
      }
    }
    assert PENDING[18] == BOUNDARY[2];
    forall i | 0 <= i <= 101 ensures !StartsAt(PENDING, ON_BEGIN, i) {
      if i + 7 <= 101 {
        assert PENDING[i..i + 7][0] == PENDING[i] && PENDING[i..i + 7][2] == PENDING[i + 2];
      }
    }
  }

  lemma NewestHeader()
    ensures NaiveLastLine(PENDING, DRAFT_DECK) == Some(LineMatch(62, true))
  {
    hide LastLineEnd, LastOccurrence;
    PendingLines();
    assert PENDING[62..76] == PENDING[62..77][..14] == DRAFT_DECK;
    assert forall i | 75 < i < 101 :: PENDING[i] != ':';
    forall i | 62 < i <= 101 ensures !StartsAt(PENDING, DRAFT_DECK, i) {
      if i + 14 <= 101 {
        assert PENDING[i..i + 14][13] == PENDING[i + 13];
      }
    }
    LastOccurrenceUnique(PENDING, DRAFT_DECK, 101, 62);
    assert PENDING[..62][62..] == [] && PENDING[..62][61] == LF;
    LastLineEndUnique(PENDING[..62], 62);
    assert PENDING[62..][15] == PENDING[77];
  }

  // The two readings.

  /** The history before the second header: the boundary is pending, and the run is still the first one. */
  lemma HistoryBefore(session: Session, slots: Option<U16>)
    ensures |PENDING| == 101
    ensures var before := FoldFrom(session, PENDING[..62], 0, Core(FRESH_PARSER, NewReducer(slots)));
      before.parser.redraftPending && RunName(before.reducer) == Some("5")
  {
    hide ArenaRecord, NewReducer, NewlineFrom, FoldFrom, ClassifyArena, ConsumeLine, Header;
    PendingRecords();
    FreshCore(slots);
    BoundaryLine();
    HeaderLine('5');
    var prefix, start := PENDING[..62], Core(FRESH_PARSER, NewReducer(slots));
    PrefixRecords();
    var first := StepCore(session, start, ArenaRecord(prefix, 0, 15));
    var second := StepCore(session, first, ArenaRecord(prefix, 16, 61));
    ArenaRecordIsArena(prefix, 0, 15);
    ArenaRecordIsArena(prefix, 16, 61);
    StepKeepsConfiguration(session, start, ArenaRecord(prefix, 0, 15));
    StepKeepsConfiguration(session, first, ArenaRecord(prefix, 16, 61));
    FoldOne(session, prefix, 0, start);
    FoldOne(session, prefix, 16, first);
    FoldOne(session, prefix, 62, second);
  }

  lemma PrefixRecords()
    ensures |PENDING| == 101
    ensures var prefix := PENDING[..62];
      && NewlineFrom(prefix, 0) == Some(15) && NewlineFrom(prefix, 16) == Some(61) && NewlineFrom(prefix, 62) == None
      && ArenaRecord(prefix, 0, 15).message == Header('5') && ArenaRecord(prefix, 16, 61).message == BOUNDARY
  {
    hide ArenaRecord, NewlineFrom, Header, PlainLine;
    PlainTexts('5');
    PendingLengths();
    PendingLines();
    var prefix := PENDING[..62];
    assert prefix[0..15] == PENDING[0..15] && prefix[0..16] == PENDING[0..16];
    assert prefix[16..61] == PENDING[16..61] && prefix[16..62] == PENDING[16..62];
    RecordIs(prefix, 0, 15, Header('5'));
    RecordIs(prefix, 16, 61, BOUNDARY);
    NothingAfter(prefix);
  }

  lemma NothingAfter(bytes: string)
    ensures NewlineFrom(bytes, |bytes|) == None
  {
  }

  /** The live attach completes the second snapshot. */
  lemma LiveHydrates(session: Session, slots: Option<U16>)
    ensures |PENDING| == 101 && TailAttach.SnapshotTail(session, slots, PENDING, 62).how.TailSnapshot?
  {
    hide NewReducer, NewlineFrom, ClassifyArena, ApplySourcedLine, TailAttach.ScanSnapshot, Apply, ConsumeAll, Header,
      SplitTimestamp, TrimLineEnd;
    PendingRecords();
    HeaderLine('7');
    ModeLine();
    var cursor, next := LogCursor(62, 0), LogCursor(78, 1);
    var scan := TailAttach.FreshScan(slots);
    var line := LineAt(Component.Arena, PENDING, cursor, 77);
    assert line.message == ArenaRecord(PENDING, 62, 77).message && line.component.Arena?;
    var event := ArenaDeckSnapshotStarted("7", None);
    assert Parse(FRESH_PARSER, line) == (FRESH_PARSER.(readingDeck := true), [event]);
    assert !TailAttach.Completes([event]);
    assert TailAttach.HeaderOf([event]) == Some(TailAttach.Header("7", None));
    TailAttach.ScanUnfolds(session, PENDING, 62, cursor, scan);
    var read := TailAttach.ReadInto(session, scan, line, TailAttach.Header("7", None));
    var last := LineAt(Component.Arena, PENDING, next, 100);
    assert last.message == ArenaRecord(PENDING, 78, 100).message && last.component.Arena?;
    var events := [ArenaDeckSnapshotCompleted, ArenaDraftMode("DRAFTING")];
    assert Parse(read.parser, last).1 == events;
    assert events[0].ArenaDeckSnapshotCompleted?;
    TailAttach.ScanUnfolds(session, PENDING, 62, next, read);
    assert TailAttach.ScanSnapshot(session, PENDING, 62, cursor, scan).Complete?;
  }

  /** The live attach hydrates run 7; the complete history is still about run 5. */
  lemma LiveNamesAnotherRun(session: Session, slots: Option<U16>)
    ensures TailAttach.ArenaTail(session, slots, PENDING).how.TailSnapshot?
    ensures AttachFull(session, slots, ArenaOnly(0, PENDING)).Ok?
    ensures RunName(AttachFull(session, slots, ArenaOnly(0, PENDING)).value.replay.reducer.state) == Some("5")
    ensures RunName(TailAttach.ArenaTail(session, slots, PENDING).reducer.state) == Some("7")
  {
    hide AttachFull, TailAttach.SnapshotTail, NaiveLastLine, ClassifyArena, ArenaRecord, NewlineFrom, StepCore, FoldFrom,
      NoneFrom, RunAccepted, SuffixReplay, PendingEvents, ConsumeAll, NewReducer, Header;
    NoRunStart();
    NewestHeader();
    LiveHydrates(session, slots);
    LastLineIsRecord(PENDING, DRAFT_DECK);
    EarlierLine(PENDING, ON_BEGIN, 62);
    PendingRecords();
    HeaderLine('7');
    TailAttach.SnapshotName(session, slots, PENDING, 62);
    TailAttach.HistoryName(session, slots, 0, PENDING, 62);
    HistoryBefore(session, slots);
    ArenaReplay(session, slots, 0, PENDING[..62]);
    FreshCore(slots);
    FoldIsReplay(session, FreshReplay(slots), PENDING[..62], START_CURSOR, true);
  }
}
