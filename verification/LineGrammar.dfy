/** The Hearthstone log grammar: timestamps, the line patterns of each component and the cheap prefilter. */
module LineGrammar {
  import opened Prelude
  import opened Text

  datatype Component = LoadingScreen | Power | Zone | Arena | Asset {
    function Rank(): nat {
      match this
      case LoadingScreen => 0
      case Power => 1
      case Zone => 2
      case Arena => 3
      case Asset => 4
    }

    function Filename(): string {
      match this
      case LoadingScreen => "LoadingScreen.log"
      case Power => "Power.log"
      case Zone => "Zone.log"
      case Arena => "Arena.log"
      case Asset => "Asset.log"
    }

    predicate CanEmitEvents() { !Asset? }
  }

  datatype RawLogLine = RawLogLine(
    component: Component,
    lineNumber: nat,
    byteOffset: nat,
    timestampKey: Option<nat>,
    message: string,
    raw: string)

  // Scanning. Every pattern below is deterministic, so a left-to-right scan finds what the regex finds.

  predicate IsCardChar(c: char) { IsUpperLetter(c) || IsDigit(c) || c == '_' }

  predicate IsWordChar(c: char) { IsCardChar(c) || IsLowerLetter(c) }

  predicate IsModeChar(c: char) { IsUpperLetter(c) || c == '_' }

  /** The end of the longest run of `p` characters from `i`. */
  function RunEnd(s: string, i: nat, p: char -> bool): (r: nat)
    requires i <= |s|
    ensures i <= r <= |s|
    ensures forall k | i <= k < r :: p(s[k])
    decreases |s| - i
  {
    if i < |s| && p(s[i]) then RunEnd(s, i + 1, p) else i
  }

  /** A non-empty run of `p` characters from `i`. */
  function Span(s: string, i: nat, p: char -> bool): (r: Option<nat>)
    requires i <= |s|
    ensures r.Some? ==> i < r.value <= |s| && forall k | i <= k < r.value :: p(s[k])
  {
    var end := RunEnd(s, i, p);
    if end == i then None else Some(end)
  }

  function Literal(s: string, i: nat, literal: string): (r: Option<nat>)
    requires i <= |s|
    ensures r.Some? ==> StartsAt(s, literal, i) && r.value == i + |literal| && r.value <= |s|
  {
    if StartsAt(s, literal, i) then Some(i + |literal|) else None
  }

  function SkipSpaces(s: string, i: nat): (r: nat)
    requires i <= |s|
    ensures i <= r <= |s|
  {
    RunEnd(s, i, IsSpace)
  }

  type Matcher<T> = (string, nat) -> Option<T>

  /** The leftmost match at or after `i`. */
  function FirstMatch<T>(s: string, i: nat, matcher: Matcher<T>): (r: Option<T>)
    requires i <= |s|
    ensures r.Some? ==> exists j | i <= j <= |s| :: matcher(s, j) == r
    decreases |s| - i
  {
    if matcher(s, i).Some? then matcher(s, i)
    else if i == |s| then None
    else FirstMatch(s, i + 1, matcher)
  }

  function Number(digits: string): nat {
    if digits == [] then 0
    else
      var last := digits[|digits| - 1];
      Number(digits[..|digits| - 1]) * 10 + (if IsDigit(last) then last as int - '0' as int else 0)
  }

  // Timestamps.

  datatype Stamp = Stamp(key: Option<nat>, start: nat)

  function TwoDigits(s: string, i: nat, separator: char): (r: Option<nat>)
    requires i <= |s|
    ensures r.Some? ==> r.value == i + 3 && r.value <= |s|
  {
    if i + 2 < |s| && IsDigit(s[i]) && IsDigit(s[i + 1]) && s[i + 2] == separator then Some(i + 3) else None
  }

  /** The ordering key and where the message starts; without a timestamp the whole line is the message. */
  function SplitTimestamp(raw: string): (r: Stamp)
    ensures r.start <= |raw|
  {
    var parsed := ParseTimestamp(raw);
    if parsed.Some? then parsed.value else Stamp(None, 0)
  }

  function ParseTimestamp(raw: string): (r: Option<Stamp>)
    ensures r.Some? ==> r.value.start <= |raw|
  {
    var hour := if |raw| > 1 && IsUpperLetter(raw[0]) && IsSpace(raw[1]) then SkipSpaces(raw, 1) else 0;
    var hourEnd :- Span(raw, hour, IsDigit);
    var minute :- Literal(raw, hourEnd, ":");
    var second :- TwoDigits(raw, minute, ':');
    var fraction :- TwoDigits(raw, second, '.');
    var fractionEnd :- Span(raw, fraction, IsDigit);
    var message :- Span(raw, fractionEnd, IsSpace);
    if hourEnd - hour > 2 then None
    else
      var clock := (Number(raw[hour..hourEnd]) * 100 + Number(raw[minute..minute + 2])) * 100
                   + Number(raw[second..second + 2]);
      var ticks := Number((raw[fraction..fractionEnd] + "0000000")[..7]);
      Some(Stamp(Some(clock * 10000000 + ticks), message))
  }

  // Arena lines.

  datatype ArenaLine =
    | DraftDeck(id: string, hero: Option<string>)
    | RunBegin(id: string)
    | RedraftBegin
    | HeroChosen(chosenHero: string)
    | DeckContains(card: string)
    | ClientChoice(card: string)
    | ModeSet(mode: string)
    | Other

  const DRAFT_DECK: string := "Draft Deck ID:"
  const DRAFT_CARD: string := "Draft deck contains card"
  const CLIENT_CHOOSES: string := "Client chooses:"
  const ON_BEGIN: string := "OnBegin"
  const ON_REDRAFT_BEGIN: string := "OnRedraftBegin"
  const ON_CHOSEN: string := "OnChosen()"
  const SET_DRAFT_MODE: string := "SetDraftMode"

  function HeroIdAt(s: string, i: nat): Option<string>
    requires i <= |s|
  {
    var name :- Literal(s, i, "HERO_");
    var end :- Span(s, name, IsCardChar);
    Some(s[i..end])
  }

  function HeroAfter(s: string, i: nat): Option<string>
    requires i <= |s|
  {
    var comma :- Literal(s, i, ",");
    var card :- Literal(s, SkipSpaces(s, comma), "Hero Card");
    var equals :- Literal(s, SkipSpaces(s, card), "=");
    HeroIdAt(s, SkipSpaces(s, equals))
  }

  function DraftDeckAt(s: string, i: nat): (r: Option<ArenaLine>)
    ensures r.Some? ==> StartsAt(s, DRAFT_DECK, i) && r.value.DraftDeck?
  {
    if i > |s| then None
    else
      var colon :- Literal(s, i, DRAFT_DECK);
      var id := SkipSpaces(s, colon);
      var end :- Span(s, id, IsDigit);
      Some(DraftDeck(s[id..end], HeroAfter(s, end)))
  }

  function DashedId(s: string, i: nat, phrase: string): Option<string>
    requires i <= |s|
  {
    var dash :- Literal(s, SkipSpaces(s, i), "-");
    var colon :- Literal(s, SkipSpaces(s, dash), phrase);
    var id := SkipSpaces(s, colon);
    var end :- Span(s, id, IsDigit);
    Some(s[id..end])
  }

  function RunBeginAt(s: string, i: nat): (r: Option<ArenaLine>)
    ensures r.Some? ==> StartsAt(s, ON_BEGIN, i) && r.value.RunBegin?
  {
    if i > |s| then None
    else
      var name :- Literal(s, i, ON_BEGIN);
      var id :- DashedId(s, name, "Got new draft deck with ID:");
      Some(RunBegin(id))
  }

  function RedraftBeginAt(s: string, i: nat): (r: Option<ArenaLine>)
    ensures r.Some? ==> StartsAt(s, ON_REDRAFT_BEGIN, i) && r.value.RedraftBegin?
  {
    if i > |s| then None
    else
      var name :- Literal(s, i, ON_REDRAFT_BEGIN);
      var _ :- DashedId(s, name, "Got new redraft deck with ID:");
      Some(RedraftBegin)
  }

  function HeroChosenAt(s: string, i: nat): (r: Option<ArenaLine>)
    ensures r.Some? ==> StartsAt(s, ON_CHOSEN, i) && r.value.HeroChosen?
  {
    if i > |s| then None
    else
      var call :- Literal(s, i, ON_CHOSEN);
      var colon :- Literal(s, call, ":");
      var equals :- Literal(s, SkipSpaces(s, colon), "hero=");
      var hero :- HeroIdAt(s, equals);
      Some(HeroChosen(hero))
  }

  function DeckContainsAt(s: string, i: nat): (r: Option<ArenaLine>)
    ensures r.Some? ==> StartsAt(s, DRAFT_CARD, i) && r.value.DeckContains?
  {
    if i > |s| then None
    else
      var phrase :- Literal(s, i, DRAFT_CARD);
      var card :- Span(s, phrase, IsSpace);
      var end :- Span(s, card, IsCardChar);
      Some(DeckContains(s[card..end]))
  }

  /** A parenthesised card id that only spaces follow. */
  function LastParenthesised(s: string, i: nat): Option<string> {
    if i > |s| then None
    else
      var card :- Literal(s, i, "(");
      var end :- Span(s, card, IsCardChar);
      var closed :- Literal(s, end, ")");
      if SkipSpaces(s, closed) == |s| then Some(s[card..end]) else None
  }

  function ClientChoiceAt(s: string, i: nat): (r: Option<ArenaLine>)
    ensures r.Some? ==> StartsAt(s, CLIENT_CHOOSES, i) && r.value.ClientChoice?
  {
    if i > |s| then None
    else
      var phrase :- Literal(s, i, CLIENT_CHOOSES);
      var card :- FirstMatch(s, phrase, LastParenthesised);
      Some(ClientChoice(card))
  }

  function ModeSetAt(s: string, i: nat): (r: Option<ArenaLine>)
    ensures r.Some? ==> StartsAt(s, SET_DRAFT_MODE, i) && r.value.ModeSet?
  {
    if i > |s| then None
    else
      var name :- Literal(s, i, SET_DRAFT_MODE);
      var dash :- Literal(s, SkipSpaces(s, name), "-");
      var mode := SkipSpaces(s, dash);
      var end :- Span(s, mode, IsModeChar);
      Some(ModeSet(s[mode..end]))
  }

  /** The first pattern that occurs anywhere in the message, in the parser's branch order. */
  function ClassifyArena(message: string): ArenaLine {
    var deck := FirstMatch(message, 0, DraftDeckAt);
    var begin := FirstMatch(message, 0, RunBeginAt);
    var redraft := FirstMatch(message, 0, RedraftBeginAt);
    var chosen := FirstMatch(message, 0, HeroChosenAt);
    var contains := FirstMatch(message, 0, DeckContainsAt);
    var choice := FirstMatch(message, 0, ClientChoiceAt);
    var mode := FirstMatch(message, 0, ModeSetAt);
    if deck.Some? then deck.value
    else if begin.Some? then begin.value
    else if redraft.Some? then redraft.value
    else if chosen.Some? then chosen.value
    else if contains.Some? then contains.value
    else if choice.Some? then choice.value
    else if mode.Some? then mode.value
    else Other
  }

  // Zone lines.

  datatype ZoneMove = ZoneMove(entity: string, card: string, from: string, to: string)

  const ZONE_FROM: string := "zone from FRIENDLY"

  function ZoneNames(s: string, i: nat): (r: Option<(string, string)>)
    requires i <= |s|
    ensures r.Some? ==> StartsAt(s, ZONE_FROM, i)
    ensures r.Some? && (r.value.0 == "DECK" || r.value.1 == "DECK") ==> Contains(s, "DECK")
    ensures r.Some? ==> forall c | c in r.value.0 || c in r.value.1 :: IsUpperLetter(c)
  {
    var phrase :- Literal(s, i, ZONE_FROM);
    var from :- Literal(s, phrase, " ");
    var fromEnd :- Span(s, from, IsUpperLetter);
    var to :- Literal(s, fromEnd, " -> FRIENDLY ");
    var toEnd :- Span(s, to, IsUpperLetter);
    assert s[from..fromEnd] == "DECK" ==> StartsAt(s, "DECK", from);
    assert s[to..toEnd] == "DECK" ==> StartsAt(s, "DECK", to);
    Some((s[from..fromEnd], s[to..toEnd]))
  }

  /** The part of a zone line from `id=` on. */
  function ZoneTailAt(s: string, i: nat): (r: Option<ZoneMove>)
    ensures r.Some? ==> Contains(s, ZONE_FROM)
    ensures r.Some? && (r.value.from == "DECK" || r.value.to == "DECK") ==> Contains(s, "DECK")
    ensures r.Some? ==> forall c | c in r.value.from || c in r.value.to :: IsUpperLetter(c)
  {
    if i > |s| || (i > 0 && IsWordChar(s[i - 1])) then None
    else
      var id :- Literal(s, i, "id=");
      var idEnd :- Span(s, id, IsDigit);
      var a :- Span(s, idEnd, IsSpace);
      var zone :- Literal(s, a, "zone=");
      var zoneEnd :- Span(s, zone, IsUpperLetter);
      var b :- Span(s, zoneEnd, IsSpace);
      var position :- Literal(s, b, "zonePos=");
      var positionEnd :- Span(s, position, IsDigit);
      var c :- Span(s, positionEnd, IsSpace);
      var card :- Literal(s, c, "cardId=");
      var cardEnd :- Span(s, card, IsWordChar);
      var d :- Span(s, cardEnd, IsSpace);
      var player :- Literal(s, d, "player=");
      var playerEnd :- Span(s, player, IsDigit);
      var bracket :- Literal(s, playerEnd, "]");
      var e :- Span(s, bracket, IsSpace);
      var names :- ZoneNames(s, e);
      Some(ZoneMove(s[id..idEnd], s[card..cardEnd], names.0, names.1))
  }

  function ZoneMoveAt(s: string, i: nat): (r: Option<ZoneMove>)
    ensures r.Some? ==> Contains(s, ZONE_FROM)
    ensures r.Some? && (r.value.from == "DECK" || r.value.to == "DECK") ==> Contains(s, "DECK")
    ensures r.Some? ==> forall c | c in r.value.from || c in r.value.to :: IsUpperLetter(c)
  {
    if i > |s| then None
    else
      var name :- Literal(s, i, "[entityName=");
      FirstMatch(s, name, ZoneTailAt)
  }

  function ClassifyZone(message: string): Option<ZoneMove> {
    FirstMatch(message, 0, ZoneMoveAt)
  }

  // Prefilter.

  /** Whether a record is worth parsing at all. */
  predicate MightEmitEvent(component: Component, raw: string) {
    match component
    case Arena =>
      || Contains(raw, DRAFT_DECK) || Contains(raw, DRAFT_CARD) || Contains(raw, CLIENT_CHOOSES)
      || Contains(raw, ON_BEGIN) || Contains(raw, ON_REDRAFT_BEGIN) || Contains(raw, ON_CHOSEN)
      || Contains(raw, SET_DRAFT_MODE)
    case LoadingScreen =>
      Contains(raw, "ARENA") || Contains(raw, "HUB -> GAMEPLAY") || Contains(raw, "GAMEPLAY -> HUB")
    case Power => Contains(raw, "CREATE_GAME") || (Contains(raw, "PLAYSTATE") && Contains(raw, "WON"))
    case Zone => Contains(raw, ZONE_FROM) && Contains(raw, "DECK")
    case Asset => false
  }

  /** A raw record without its line ending, as a line of its component. */
  function Materialize(component: Component, lineNumber: nat, byteOffset: nat, raw: string): RawLogLine {
    var stamp := SplitTimestamp(raw);
    RawLogLine(component, lineNumber, byteOffset, stamp.key, raw[stamp.start..], raw)
  }
}
