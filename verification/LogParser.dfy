/** The three-flag log parser, and the prefilter that decides which lines reach it. */
module LogParser {
  import opened Prelude
  import opened Text
  import opened ArenaState
  import opened LineGrammar

  datatype ParserState = ParserState(readingDeck: bool, picksEnabled: bool, redraftPending: bool)

  const FRESH_PARSER := ParserState(false, false, false)

  const PARSER_CHECKPOINT_SCHEMA_VERSION: nat := 6

  datatype ParserCheckpoint = ParserCheckpoint(schemaVersion: nat, flags: ParserState)

  predicate ClosesSnapshot(mode: string) {
    mode == "DRAFTING" || mode == "ACTIVE_DRAFT_DECK" || mode == "REDRAFTING"
  }

  predicate OpensPicks(mode: string) {
    mode == "DRAFTING" || mode == "REDRAFTING"
  }

  function ParseMode(p: ParserState, mode: string): (ParserState, seq<GameEvent>) {
    var resumed := if p.redraftPending && mode == "REDRAFTING"
                   then p.(redraftPending := false, picksEnabled := true) else p;
    if resumed.readingDeck && ClosesSnapshot(mode) then
      (resumed.(readingDeck := false, picksEnabled := resumed.picksEnabled || OpensPicks(mode)),
       [ArenaDeckSnapshotCompleted, ArenaDraftMode(mode)])
    else
      (resumed, [ArenaDraftMode(mode)])
  }

  function ParseArena(p: ParserState, line: ArenaLine): (ParserState, seq<GameEvent>) {
    match line
    case DraftDeck(id, hero) =>
      if p.redraftPending then (p, [])
      else (p.(readingDeck := true, picksEnabled := false), [ArenaDeckSnapshotStarted(id, hero)])
    case RunBegin(id) => (FRESH_PARSER, [ArenaRunStarted(id)])
    case RedraftBegin => (ParserState(false, true, true), [])
    case HeroChosen(hero) => (p.(picksEnabled := true), [HeroCard(hero)])
    case DeckContains(card) =>
      (p, if !p.redraftPending && p.readingDeck then [ArenaDeckSnapshotCard(card)] else [])
    case ClientChoice(card) =>
      var resumed := if p.redraftPending then p.(redraftPending := false, picksEnabled := true) else p;
      (resumed, if resumed.picksEnabled && IsRealCardId(card) then [ArenaPick(card)] else [])
    case ModeSet(mode) => ParseMode(p, mode)
    case Other => (p, [])
  }

  function ParseLoadingScreen(message: string): seq<GameEvent> {
    var upper := Upper(message);
    (if Contains(upper, "ARENA") then [GameModeSeen("ARENA")] else [])
    + (if Contains(upper, "HUB -> GAMEPLAY") then [GameStarted]
       else if Contains(upper, "GAMEPLAY -> HUB") then [GameEnded(GameResult.Unknown)]
       else [])
  }

  function ParsePower(message: string): seq<GameEvent> {
    var upper := Upper(message);
    if Contains(upper, "CREATE_GAME") then [GameStarted]
    else if Contains(upper, "PLAYSTATE") && Contains(upper, "WON") then [GameEnded(GameResult.Unknown)]
    else []
  }

  function ParseZone(message: string): seq<GameEvent> {
    var move := ClassifyZone(message);
    if move.None? then []
    else
      var (from, to) := (move.value.from, move.value.to);
      if !SameIgnoringCase(from, "DECK") && !SameIgnoringCase(to, "DECK") then []
      else if Number(move.value.entity) >= 0x1_0000_0000 then []
      else [FriendlyCardZoneChanged(Number(move.value.entity), move.value.card, from, to)]
  }

  function Parse(p: ParserState, line: RawLogLine): (ParserState, seq<GameEvent>) {
    match line.component
    case Arena => ParseArena(p, ClassifyArena(line.message))
    case LoadingScreen => (p, ParseLoadingScreen(line.message))
    case Power => (p, ParsePower(line.message))
    case Zone => (p, ParseZone(line.message))
    case Asset => (p, [])
  }

  class HearthstoneLogParser {
    var readingDeck: bool
    var picksEnabled: bool
    var redraftPending: bool

    function Flags(): ParserState
      reads this
    {
      ParserState(readingDeck, picksEnabled, redraftPending)
    }

    constructor ()
      ensures Flags() == FRESH_PARSER
    {
      readingDeck, picksEnabled, redraftPending := false, false, false;
    }

    constructor FromFlags(flags: ParserState)
      ensures Flags() == flags
    {
      readingDeck, picksEnabled, redraftPending := flags.readingDeck, flags.picksEnabled, flags.redraftPending;
    }

    method TakeCheckpoint() returns (c: ParserCheckpoint)
      ensures c == ParserCheckpoint(PARSER_CHECKPOINT_SCHEMA_VERSION, Flags())
    {
      c := ParserCheckpoint(PARSER_CHECKPOINT_SCHEMA_VERSION, ParserState(readingDeck, picksEnabled, redraftPending));
    }

    static method FromCheckpoint(c: ParserCheckpoint) returns (r: Option<HearthstoneLogParser>)
      ensures r.Some? <==> c.schemaVersion == PARSER_CHECKPOINT_SCHEMA_VERSION
      ensures r.Some? ==> fresh(r.value) && r.value.Flags() == c.flags
    {
      if c.schemaVersion != PARSER_CHECKPOINT_SCHEMA_VERSION {
        return None;
      }
      var parser := new HearthstoneLogParser.FromFlags(c.flags);
      return Some(parser);
    }

    method EnablePicks()
      modifies this
      ensures Flags() == old(Flags()).(picksEnabled := true)
    {
      picksEnabled := true;
    }

    method DisablePicks()
      modifies this
      ensures Flags() == old(Flags()).(picksEnabled := false)
    {
      picksEnabled := false;
    }

    method ParseModeLine(mode: string) returns (events: seq<GameEvent>)
      modifies this
      ensures (Flags(), events) == ParseMode(old(Flags()), mode)
    {
      if redraftPending && mode == "REDRAFTING" {
        redraftPending, picksEnabled := false, true;
      }
      events := [ArenaDraftMode(mode)];
      if readingDeck && (mode == "DRAFTING" || mode == "ACTIVE_DRAFT_DECK" || mode == "REDRAFTING") {
        readingDeck := false;
        events := [ArenaDeckSnapshotCompleted, ArenaDraftMode(mode)];
        if mode == "DRAFTING" || mode == "REDRAFTING" {
          picksEnabled := true;
        }
      }
    }

    method ParseArenaLine(message: string) returns (events: seq<GameEvent>)
      modifies this
      ensures (Flags(), events) == ParseArena(old(Flags()), ClassifyArena(message))
    {
      match ClassifyArena(message) {
        case DraftDeck(id, hero) =>
          if redraftPending {
            return [];
          }
          readingDeck, picksEnabled := true, false;
          return [ArenaDeckSnapshotStarted(id, hero)];
        case RunBegin(id) =>
          readingDeck, picksEnabled, redraftPending := false, false, false;
          return [ArenaRunStarted(id)];
        case RedraftBegin =>
          readingDeck, picksEnabled, redraftPending := false, true, true;
          return [];
        case HeroChosen(hero) =>
          picksEnabled := true;
          return [HeroCard(hero)];
        case DeckContains(card) =>
          if redraftPending {
            return [];
          }
          return if readingDeck then [ArenaDeckSnapshotCard(card)] else [];
        case ClientChoice(card) =>
          if redraftPending {
            redraftPending, picksEnabled := false, true;
          }
          return if picksEnabled && IsRealCardId(card) then [ArenaPick(card)] else [];
        case ModeSet(mode) =>
          events := ParseModeLine(mode);
        case Other =>
          return [];
      }
    }

    method ParseLine(line: RawLogLine) returns (events: seq<GameEvent>)
      modifies this
      ensures (Flags(), events) == Parse(old(Flags()), line)
    {
      match line.component {
        case Arena => events := ParseArenaLine(line.message);
        case LoadingScreen => events := ParseLoadingScreen(line.message);
        case Power => events := ParsePower(line.message);
        case Zone => events := ParseZone(line.message);
        case Asset => events := [];
      }
    }
  }

  // The prefilter.

  lemma SuffixContains(raw: string, start: nat, literal: string)
    requires start <= |raw| && Contains(raw[start..], literal)
    ensures Contains(raw, literal)
  {
    var i :| 0 <= i <= |raw[start..]| && StartsAt(raw[start..], literal, i);
    assert raw[start + i..start + i + |literal|] == raw[start..][i..i + |literal|];
    assert StartsAt(raw, literal, start + i);
  }

  /** Every Arena pattern contains one of the prefilter's literals. */
  lemma ArenaPatternHasLiteral(message: string)
    ensures ClassifyArena(message).Other? || MightEmitEvent(Component.Arena, message)
  {
    hide DraftDeckAt, RunBeginAt, RedraftBeginAt, HeroChosenAt, DeckContainsAt, ClientChoiceAt, ModeSetAt, StartsAt;
    var line := ClassifyArena(message);
    if !line.Other? {
      PatternFound(message, DraftDeckAt, DRAFT_DECK);
      PatternFound(message, RunBeginAt, ON_BEGIN);
      PatternFound(message, RedraftBeginAt, ON_REDRAFT_BEGIN);
      PatternFound(message, HeroChosenAt, ON_CHOSEN);
      PatternFound(message, DeckContainsAt, DRAFT_CARD);
      PatternFound(message, ClientChoiceAt, CLIENT_CHOOSES);
      PatternFound(message, ModeSetAt, SET_DRAFT_MODE);
    }
  }

  lemma PatternFound(message: string, matcher: Matcher<ArenaLine>, literal: string)
    requires forall s, i :: matcher(s, i).Some? ==> StartsAt(s, literal, i)
    ensures FirstMatch(message, 0, matcher).Some? ==> Contains(message, literal)
  {
  }

  /** The captured zone names are upper-case, so comparing without case is comparing. */
  lemma UpperDeck(name: string)
    requires forall c | c in name :: IsUpperLetter(c)
    ensures SameIgnoringCase(name, "DECK") ==> name == "DECK"
  {
    if SameIgnoringCase(name, "DECK") {
      assert |name| == |Lower(name)| == |Lower("DECK")| == 4;
      forall i | 0 <= i < 4 ensures name[i] == "DECK"[i] {
        assert Lower(name)[i] == LowerChar(name[i]) && Lower("DECK")[i] == LowerChar("DECK"[i]);
        assert name[i] in name;
      }
    }
  }

  lemma ZoneEventHasLiterals(message: string)
    ensures ParseZone(message) != [] ==> MightEmitEvent(Zone, message)
  {
    hide ZoneMoveAt;
    var move := ClassifyZone(message);
    if move.Some? {
      UpperDeck(move.value.from);
      UpperDeck(move.value.to);
    }
  }

  /** Dropping an Arena, Zone or Asset record that the prefilter rejects changes no parser flag and no event. */
  lemma PrefilterSound(p: ParserState, component: Component, lineNumber: nat, byteOffset: nat, raw: string)
    requires component.Arena? || component.Zone? || component.Asset?
    requires !MightEmitEvent(component, raw)
    ensures Parse(p, Materialize(component, lineNumber, byteOffset, raw)) == (p, [])
  {
    var start := SplitTimestamp(raw).start;
    var message := raw[start..];
    ArenaPatternHasLiteral(message);
    ZoneEventHasLiterals(message);
    if MightEmitEvent(component, message) {
      LiteralsReachRaw(component, raw, start);
    }
  }

  lemma LiteralsReachRaw(component: Component, raw: string, start: nat)
    requires start <= |raw| && MightEmitEvent(component, raw[start..])
    ensures MightEmitEvent(component, raw)
  {
    hide Contains;
    forall literal: string | Contains(raw[start..], literal) ensures Contains(raw, literal) {
      SuffixContains(raw, start, literal);
    }
  }

  /** LoadingScreen and Power are matched after upper-casing but filtered before it: a dropped record emits
      nothing exactly when its upper-cased message would be dropped as well. */
  lemma PrefilterGap(p: ParserState, component: Component, lineNumber: nat, byteOffset: nat, raw: string)
    requires component.LoadingScreen? || component.Power?
    requires !MightEmitEvent(component, raw)
    ensures var line := Materialize(component, lineNumber, byteOffset, raw);
      && Parse(p, line).0 == p
      && (Parse(p, line).1 == [] <==> !MightEmitEvent(component, Upper(line.message)))
  {
    hide Contains, SplitTimestamp;
  }

  /** A lower-case record that the parser would act on and the prefilter drops. */
  lemma PrefilterDropsLowerCase(p: ParserState)
    ensures !MightEmitEvent(Power, "create_game")
    ensures Parse(p, Materialize(Power, 1, 0, "create_game")).1 == [GameStarted]
  {
    var raw := "create_game";
    forall i, literal | 0 <= i <= |raw| && literal in ["CREATE_GAME", "PLAYSTATE"] ensures !StartsAt(raw, literal, i) {
      if i + |literal| <= |raw| {
        assert raw[i..i + |literal|][0] == raw[i];
        assert !IsUpperLetter(raw[i]);
      }
    }
    assert SplitTimestamp(raw) == Stamp(None, 0);
    assert raw[0..] == raw;
    assert Upper(raw) == "CREATE_GAME";
    assert StartsAt(Upper(raw), "CREATE_GAME", 0);
  }
}
