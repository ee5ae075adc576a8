/** A log whose attach leaves a gap: the polls are accepted and yet end in another state than a full replay. */
module UnsortedAttach {
  import opened Prelude
  import opened Text
  import opened ArenaState
  import opened ReducerSpec
  import opened LogRecords
  import opened LineGrammar
  import opened LogParser
  import opened LogReader
  import opened KWayMerge
  import opened ObserverSpec
  import opened Tailing

  // Records with a timestamp.

  /** A record written in this second after midnight. */
  function Stamped(second: char, message: string): (r: string)
    ensures |r| == 10 + |message|
  {
    "0:00:0" + [second] + ".0 " + message
  }

  function SecondKey(second: char): nat
    requires IsDigit(second)
  {
    (second as int - '0' as int) * 10000000
  }

  function StampedLine(component: Component, number: nat, offset: nat, second: char, message: string): RawLogLine
    requires IsDigit(second)
  {
    RawLogLine(component, number, offset, Some(SecondKey(second)), message, Stamped(second, message))
  }

  lemma Spans(second: char, message: string)
    requires IsDigit(second) && message != [] && !IsSpace(message[0])
    ensures var raw := Stamped(second, message);
      && Span(raw, 0, IsDigit) == Some(1) && Literal(raw, 1, ":") == Some(2) && TwoDigits(raw, 2, ':') == Some(5)
      && TwoDigits(raw, 5, '.') == Some(8) && Span(raw, 8, IsDigit) == Some(9) && Span(raw, 9, IsSpace) == Some(10)
  {
    var raw := Stamped(second, message);
    assert raw[1..2] == ":";
    assert RunEnd(raw, 1, IsDigit) == 1 && RunEnd(raw, 9, IsDigit) == 9 && RunEnd(raw, 10, IsSpace) == 10;
  }

  lemma Numbers(second: char, message: string)
    requires IsDigit(second)
    ensures var raw := Stamped(second, message);
      && Number(raw[0..1]) == 0 && Number(raw[2..4]) == 0 && Number(raw[5..7]) == second as int - '0' as int
      && Number((raw[8..9] + "0000000")[..7]) == 0
  {
    var raw := Stamped(second, message);
    assert raw[0..1] == "0" && raw[2..4] == "00" && raw[5..7] == "0" + [second] && raw[8..9] == "0";
    assert ("0" + "0000000")[..7] == "0000000";
    assert "0"[..0] == "" && Number("0") == 0;
    assert "00"[..1] == "0" && ("0" + [second])[..1] == "0";
    assert raw[8..9] + "0000000" == "0" + "0000000";
    Zeros(7);
    assert "0000000"[..7] == "0000000";
  }

  lemma {:induction false} Zeros(n: nat)
    requires n <= 7
    ensures Number("0000000"[..n]) == 0
  {
    if n > 0 {
      Zeros(n - 1);
      assert "0000000"[..n][..n - 1] == "0000000"[..n - 1];
    }
    assert "0000000"[..7] == "0000000";
  }

  lemma StampedIs(component: Component, number: nat, offset: nat, second: char, message: string)
    requires IsDigit(second) && message != [] && !IsSpace(message[0])
    ensures Materialize(component, number, offset, Stamped(second, message))
         == StampedLine(component, number, offset, second, message)
  {
    hide Number, Span, Literal, TwoDigits;
    Spans(second, message);
    Numbers(second, message);
    var raw := Stamped(second, message);
    assert !IsUpperLetter(raw[0]);
    assert raw[10..] == message;
  }

  /** A stamped record that the prefilter keeps is the next line of its component. */
  lemma NextStamped(component: Component, bytes: string, cursor: LogCursor, second: char, message: string)
    requires IsDigit(second) && message != [] && !IsSpace(message[0]) && LF !in message && CR !in message
    requires MightEmitEvent(component, Stamped(second, message))
    requires cursor.byteOffset + |message| + 11 <= |bytes|
    requires bytes[cursor.byteOffset..cursor.byteOffset + |message| + 11] == Stamped(second, message) + [LF]
    ensures PendingEvents(component, bytes, cursor)
         == [StampedLine(component, cursor.lineNumber + 1, cursor.byteOffset, second, message)]
            + PendingEvents(component, bytes, LogCursor(cursor.byteOffset + |message| + 11, cursor.lineNumber + 1))
  {
    hide MightEmitEvent, Materialize, TrimLineEnd, PendingEvents;
    var raw, at := Stamped(second, message), cursor.byteOffset;
    var newline := at + |raw|;
    assert raw + [LF] == bytes[at..newline + 1];
    assert bytes[newline] == (raw + [LF])[|raw|] && bytes[at..newline] == (raw + [LF])[..|raw|] == raw;
    assert LF !in raw;
    NewlineFromUnique(bytes, at, newline);
    NextRecord(component, bytes, cursor, newline);
    Untrimmed(raw);
    StampedIs(component, cursor.lineNumber + 1, at, second, message);
  }

  lemma Untrimmed(raw: string)
    requires raw != [] && raw[|raw| - 1] != LF && raw[|raw| - 1] != CR
    ensures TrimLineEnd(raw + [LF]) == raw
  {
    assert (raw + [LF])[..|raw|] == raw;
    assert TrimLineEnd(raw + [LF]) == TrimLineEnd(raw);
  }

  // The log.

  const STARTED: string := "CREATE_GAME"

  const ENDED: string := "GAMEPLAY -> HUB"

  /** Power writes a record of second five, then one of second one. */
  const POWER: string := Stamped('5', STARTED) + [LF] + Stamped('1', STARTED) + [LF]

  /** Later LoadingScreen writes a record of second two. */
  const SCREEN: string := Stamped('2', ENDED) + [LF]

  function Logs(screen: string): Files {
    map[Component.Power := FileView(0, POWER), Component.LoadingScreen := FileView(1, screen)]
  }

  function FirstStart(): RawLogLine { StampedLine(Component.Power, 1, 0, '5', STARTED) }

  function SecondStart(): RawLogLine { StampedLine(Component.Power, 2, 22, '1', STARTED) }

  function LateEnd(): RawLogLine { StampedLine(Component.LoadingScreen, 1, 0, '2', ENDED) }

  lemma KeptByPrefilter()
    ensures MightEmitEvent(Component.Power, Stamped('5', STARTED)) && MightEmitEvent(Component.Power, Stamped('1', STARTED))
    ensures MightEmitEvent(Component.LoadingScreen, Stamped('2', ENDED))
  {
    assert StartsAt(Stamped('5', STARTED), STARTED, 10) && StartsAt(Stamped('1', STARTED), STARTED, 10);
    assert StartsAt(Stamped('2', ENDED), ENDED, 10);
  }

  lemma PowerLines()
    ensures PendingEvents(Component.Power, POWER, START_CURSOR) == [FirstStart(), SecondStart()]
  {
    hide MightEmitEvent, PendingEvents, Stamped;
    KeptByPrefilter();
    assert POWER[0..22] == Stamped('5', STARTED) + [LF] && POWER[22..44] == Stamped('1', STARTED) + [LF];
    NextStamped(Component.Power, POWER, START_CURSOR, '5', STARTED);
    NextStamped(Component.Power, POWER, LogCursor(22, 1), '1', STARTED);
    NothingPending(Component.Power, POWER, 2);
  }

  lemma NothingPending(component: Component, bytes: string, number: nat)
    ensures PendingEvents(component, bytes, LogCursor(|bytes|, number)) == []
  {
    hide PendingEvents;
    NoNextRecord(component, bytes, LogCursor(|bytes|, number));
  }

  lemma ScreenLines()
    ensures PendingEvents(Component.LoadingScreen, SCREEN, START_CURSOR) == [LateEnd()]
    ensures PendingEvents(Component.LoadingScreen, "", START_CURSOR) == []
  {
    hide MightEmitEvent, PendingEvents, Stamped;
    KeptByPrefilter();
    assert SCREEN[0..26] == Stamped('2', ENDED) + [LF];
    NextStamped(Component.LoadingScreen, SCREEN, START_CURSOR, '2', ENDED);
    NothingPending(Component.LoadingScreen, SCREEN, 1);
    NothingPending(Component.LoadingScreen, "", 0);
  }

  function PowerStreams(): (r: Streams)
    ensures |r| == 5
  {
    OneStream(Component.Power, [FirstStart(), SecondStart()])
  }

  function ScreenStreams(): (r: Streams)
    ensures |r| == 5
  {
    OneStream(Component.LoadingScreen, [LateEnd()])
  }

  lemma AttachStreams(screen: string)
    requires screen == "" || screen == SCREEN
    ensures CursorsFit(Logs(screen), map[])
    ensures PendingStreams(Logs(screen), map[])
         == if screen == "" then PowerStreams() else Extend(PowerStreams(), ScreenStreams())
  {
    hide PendingEvents, FirstStart, SecondStart, LateEnd;
    ComponentRanks();
    PowerLines();
    ScreenLines();
    var streams := PendingStreams(Logs(screen), map[]);
    forall i | 0 <= i < 5
      ensures streams[i] == PowerStreams()[i] + if screen == "" then [] else ScreenStreams()[i]
    {
      assert COMPONENTS[i].Rank() == i && streams[i] == StreamOf(Logs(screen), map[], COMPONENTS[i]);
    }
  }

  lemma LogsGrow()
    ensures Grows(Logs(""), Logs(SCREEN))
    ensures CursorsFit(Logs(SCREEN), AttachedCursors(Logs("")))
    ensures PendingStreams(Logs(SCREEN), AttachedCursors(Logs(""))) == ScreenStreams()
  {
    hide PendingStreams, AttachedCursors, PowerStreams, ScreenStreams, Extend;
    GrownFit(Logs(""), Logs(SCREEN));
    StreamsExtend(Logs(""), Logs(SCREEN));
    AttachStreams("");
    AttachStreams(SCREEN);
    ExtendInjective(PowerStreams(), PendingStreams(Logs(SCREEN), AttachedCursors(Logs(""))), ScreenStreams());
  }

  lemma ExtendInjective(streams: Streams, a: Streams, b: Streams)
    requires |streams| == |a| == |b| == 5 && Extend(streams, a) == Extend(streams, b)
    ensures a == b
  {
    forall i | 0 <= i < 5 ensures a[i] == b[i] {
      assert Extend(streams, a)[i][|streams[i]|..] == a[i] && Extend(streams, b)[i][|streams[i]|..] == b[i];
    }
  }

  /** What the three readings deliver. */
  lemma Readings()
    ensures Grows(Logs(""), Logs(SCREEN))
    ensures AttachedLines(Logs("")) == [FirstStart(), SecondStart()]
    ensures PolledLines(Logs(""), Logs(SCREEN)) == [LateEnd()]
    ensures AttachedLines(Logs(SCREEN)) == [LateEnd(), FirstStart(), SecondStart()]
  {
    hide Merge, PendingStreams, Logs, FirstStart, SecondStart, LateEnd, PowerStreams, ScreenStreams, Extend, Tagged;
    AttachStreams("");
    AttachStreams(SCREEN);
    LogsGrow();
    MergedTogether();
  }

  lemma MergedTogether()
    ensures Tagged(PowerStreams()) && Merge(PowerStreams()) == [FirstStart(), SecondStart()]
    ensures Tagged(ScreenStreams()) && Merge(ScreenStreams()) == [LateEnd()]
    ensures var all := Extend(PowerStreams(), ScreenStreams());
      Tagged(all) && Merge(all) == [LateEnd(), FirstStart(), SecondStart()]
  {
    hide Merge, Stamped;
    OneStreamMerge(Component.Power, [FirstStart(), SecondStart()]);
    OneStreamMerge(Component.LoadingScreen, [LateEnd()]);
    var all := Extend(PowerStreams(), ScreenStreams());
    ExtendTagged(PowerStreams(), ScreenStreams());
    assert all[0] == [LateEnd()] && all[1] == [FirstStart(), SecondStart()] && all[2] == all[3] == all[4] == [];
    assert Precedes(LateEnd(), FirstStart());
    assert IsLeastHead(all, 0);
    MergeStep(all, 0);
    assert Pop(all, 0)[0] == [];
    assert Pop(all, 0) == PowerStreams();
  }

  // What they come to.

  lemma StartParses(p: ParserState, line: RawLogLine)
    requires line == FirstStart() || line == SecondStart()
    ensures Parse(p, line) == (p, [GameStarted])
  {
    assert Upper(STARTED) == STARTED && StartsAt(STARTED, "CREATE_GAME", 0);
  }

  lemma OnlyEnds()
    ensures Upper(ENDED) == ENDED && |ENDED| == 15 && Contains(ENDED, "GAMEPLAY -> HUB")
    ensures !Contains(ENDED, "ARENA") && !Contains(ENDED, "HUB -> GAMEPLAY")
  {
    assert StartsAt(ENDED, "GAMEPLAY -> HUB", 0);
    assert 'R' !in ENDED;
    forall i | 0 <= i <= |ENDED| ensures !StartsAt(ENDED, "ARENA", i) {
      if i + 5 <= |ENDED| {
        assert ENDED[i..i + 5][1] == ENDED[i + 1] && ENDED[i + 1] in ENDED;
        assert "ARENA"[1] == 'R';
      }
    }
    assert ENDED[0..15] == ENDED && ENDED[0] == 'G' && "HUB -> GAMEPLAY"[0] == 'H';
  }

  lemma EndParses(p: ParserState)
    ensures Parse(p, LateEnd()) == (p, [GameEnded(GameResult.Unknown)])
  {
    hide Contains, Stamped;
    OnlyEnds();
    assert LateEnd().message == ENDED && LateEnd().component.LoadingScreen?;
    assert ParseLoadingScreen(ENDED) == [GameEnded(GameResult.Unknown)];
    assert Parse(p, LateEnd()) == (p, ParseLoadingScreen(ENDED));
  }

  predicate Playing(r: Replayed) { r.reducer.state.snapshot.game.active }

  lemma OneEvent(s: ReducerState, source: EventSource, event: GameEvent)
    requires event == GameStarted || event.GameEnded?
    ensures ConsumeLine(s, source, [event]).snapshot.game.active == event.GameStarted?
  {
    var noted := s.(observations := RecordEvents(s.observations, source, [event]));
    assert ApplyAll(noted, [event]) == ApplyAll(Apply(noted, event), []);
    assert Apply(noted, event) == Sync(Mutate(noted, event));
  }

  lemma Consumes(session: Session, r: Replayed, line: RawLogLine)
    requires line in [FirstStart(), SecondStart(), LateEnd()]
    requires SourceOf(session, line) !in r.reducer.seen || (line != LateEnd() && Playing(r))
    ensures Playing(Consume(session, r, line)) <==> line != LateEnd()
    ensures Consume(session, r, line).reducer.seen == r.reducer.seen + {SourceOf(session, line)}
  {
    hide Parse, ConsumeLine, FirstStart, SecondStart, LateEnd;
    var event := if line == LateEnd() then GameEnded(GameResult.Unknown) else GameStarted;
    if line == LateEnd() {
      EndParses(r.parser);
    } else {
      StartParses(r.parser, line);
    }
    OneEvent(r.reducer.state, SourceOf(session, line), event);
  }

  lemma ConsumeOne(session: Session, r: Replayed, line: RawLogLine)
    ensures ConsumeAll(session, r, [line]) == Consume(session, r, line)
  {
    hide Consume;
    assert [line][1..] == [];
  }

  /** The two orders of the three records. */
  lemma Outcomes(session: Session, slots: Option<U16>)
    ensures var r := FreshReplay(slots);
      && !Playing(ConsumeAll(session, ConsumeAll(session, r, [FirstStart(), SecondStart()]), [LateEnd()]))
      && Playing(ConsumeAll(session, r, [LateEnd(), FirstStart(), SecondStart()]))
  {
    hide Consume, NewReducer, Stamped;
    var a, b, c, r := FirstStart(), SecondStart(), LateEnd(), FreshReplay(slots);
    assert a.component.Filename()[0] != c.component.Filename()[0];
    assert [a, b][1..] == [b] && [c, a, b][1..] == [a, b];
    var started, ended := Consume(session, r, a), Consume(session, r, c);
    Consumes(session, r, a);
    Consumes(session, started, b);
    Consumes(session, Consume(session, started, b), c);
    Consumes(session, r, c);
    Consumes(session, ended, a);
    Consumes(session, Consume(session, ended, a), b);
    ConsumeOne(session, started, b);
    ConsumeOne(session, Consume(session, ended, a), b);
    ConsumeOne(session, Consume(session, started, b), c);
  }

  /** Power was read at second five and then at second one. A LoadingScreen record of second two passes the check of
      the poll, which ends the game; a full replay reads it first, and the game is on. */
  lemma GuardMissesUnsortedAttach(session: Session, slots: Option<U16>)
    ensures Grows(Logs(""), Logs(SCREEN)) && !Gapless(AttachedLines(Logs("")), Logs("").Keys)
    ensures AttachFull(session, slots, Logs("")).Ok? && AttachFull(session, slots, Logs(SCREEN)).Ok?
    ensures var polled := Poll(session, AttachFull(session, slots, Logs("")).value, Logs(SCREEN));
      polled.Ok? && !Playing(polled.value.replay)
    ensures Playing(AttachFull(session, slots, Logs(SCREEN)).value.replay)
  {
    hide FirstFault, ConsumeAll, FreshReplay, Stamped, PendingMerged, FirstStart, SecondStart, LateEnd, Witnesses, AdvancedCursors;
    Readings();
    Outcomes(session, slots);
    var o := AttachFull(session, slots, Logs("")).value;
    AttachedLastOrder(session, slots, o, Logs(""));
    AttachedLastOrder(session, slots, AttachFull(session, slots, Logs(SCREEN)).value, Logs(SCREEN));
    GrowthHasNoFault(session, slots, o, Logs(""), Logs(SCREEN), 0);
    GapIsThere();
  }

  lemma GapIsThere()
    ensures InOrder(LastOrder([FirstStart(), SecondStart()]), [LateEnd()])
    ensures !Gapless([FirstStart(), SecondStart()], Logs("").Keys)
  {
    hide Stamped;
    var lines := [FirstStart(), SecondStart()];
    assert InOrder(Some(OrderOf(LateEnd())), [LateEnd()][1..]);
    assert NoneFrom(lines, 0, 0);
    assert Component.LoadingScreen.Rank() == 0 && Component.LoadingScreen in Logs("");
    assert Before(NextOrder(OrderOf(lines[1]), Component.LoadingScreen), OrderOf(lines[0]));
  }
}
