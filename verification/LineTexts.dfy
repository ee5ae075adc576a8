/** The texts of the log lines: what the game writes for an event is parsed back to that event. */
module LineTexts {
  import opened Prelude
  import opened Text
  import opened ArenaState
  import opened LineGrammar
  import opened LogParser
  import opened Decimals

  // Matching piece by piece.

  predicate At(s: string, i: nat, rest: string) {
    i <= |s| && s[i..] == rest
  }

  lemma AtStep(s: string, i: nat, piece: string, rest: string)
    requires At(s, i, piece + rest)
    ensures i + |piece| <= |s| && s[i..i + |piece|] == piece && At(s, i + |piece|, rest)
  {
    assert s[i..][..|piece|] == piece && s[i..][|piece|..] == rest;
    assert s[i + |piece|..] == s[i..][|piece|..];
  }

  lemma AtLiteral(s: string, i: nat, literal: string, rest: string)
    requires At(s, i, literal + rest)
    ensures Literal(s, i, literal) == Some(i + |literal|) && At(s, i + |literal|, rest)
  {
    AtStep(s, i, literal, rest);
  }

  lemma AtSpan(s: string, i: nat, word: string, rest: string, p: char -> bool)
    requires At(s, i, word + rest) && word != [] && (forall c | c in word :: p(c)) && (rest == [] || !p(rest[0]))
    ensures Span(s, i, p) == Some(i + |word|) && s[i..i + |word|] == word && At(s, i + |word|, rest)
  {
    AtStep(s, i, word, rest);
    forall k | i <= k < i + |word| ensures p(s[k]) {
      assert s[k] == s[i..i + |word|][k - i] && s[i..i + |word|][k - i] in word;
    }
    assert i + |word| < |s| ==> s[i + |word|] == s[i + |word|..][0];
    RunIs(s, i, i + |word|, p);
  }

  lemma AtWord(s: string, i: nat, rest: string)
    requires At(s, i, rest) && (rest == [] || !IsSpace(rest[0]))
    ensures SkipSpaces(s, i) == i
  {
    assert i < |s| ==> s[i] == s[i..][0];
    RunIs(s, i, i, IsSpace);
  }

  lemma AtSpace(s: string, i: nat, rest: string)
    requires At(s, i, " " + rest) && (rest == [] || !IsSpace(rest[0]))
    ensures SkipSpaces(s, i) == i + 1 && At(s, i + 1, rest) && Span(s, i, IsSpace) == Some(i + 1)
  {
    AtSpan(s, i, " ", rest, IsSpace);
  }

  // Zone lines.

  predicate IsDigits(s: string) { s != [] && forall c | c in s :: IsDigit(c) }

  predicate IsZone(s: string) { s != [] && forall c | c in s :: IsUpperLetter(c) }

  predicate IsCard(s: string) { s != [] && forall c | c in s :: IsWordChar(c) }

  /** A name that could not be taken for the attributes after it. */
  predicate IsName(s: string) { '=' !in s }

  function NamesPart(from: string, to: string): string {
    ZONE_FROM + (" " + (from + (" -> FRIENDLY " + to)))
  }

  function PlayerPart(player: string, rest: string): string {
    " " + ("player=" + (player + ("]" + (" " + rest))))
  }

  function CardPart(card: string, rest: string): string {
    " " + ("cardId=" + (card + rest))
  }

  function PositionPart(position: string, rest: string): string {
    " " + ("zonePos=" + (position + rest))
  }

  function ZonePart(zone: string, position: string, rest: string): string {
    " " + ("zone=" + (zone + PositionPart(position, rest)))
  }

  /** The attributes of a zone line after the entity's name. */
  function ZoneTail(entity: string, zone: string, position: string, card: string, player: string, from: string, to: string):
    string
  {
    "id=" + (entity + ZonePart(zone, position, CardPart(card, PlayerPart(player, NamesPart(from, to)))))
  }

  /** What the game writes when a card of the player changes its zone. */
  function ZoneText(
    before: string, name: string, entity: string, zone: string, position: string, card: string, player: string,
    from: string, to: string): string
  {
    before + ("[entityName=" + (name + (" " + ZoneTail(entity, zone, position, card, player, from, to))))
  }

  predicate ZoneFields(entity: string, zone: string, position: string, card: string, player: string, from: string, to: string)
  {
    && IsDigits(entity) && IsZone(zone) && IsDigits(position) && IsCard(card) && IsDigits(player)
    && IsZone(from) && IsZone(to)
  }

  lemma NamesMatch(s: string, i: nat, from: string, to: string)
    requires At(s, i, NamesPart(from, to)) && IsZone(from) && IsZone(to)
    ensures ZoneNames(s, i) == Some((from, to))
  {
    hide StartsAt, Contains, Span, Literal, At;
    AtLiteral(s, i, ZONE_FROM, " " + (from + (" -> FRIENDLY " + to)));
    var a := i + |ZONE_FROM|;
    AtLiteral(s, a, " ", from + (" -> FRIENDLY " + to));
    AtSpan(s, a + 1, from, " -> FRIENDLY " + to, IsUpperLetter);
    var b := a + 1 + |from|;
    AtLiteral(s, b, " -> FRIENDLY ", to);
    assert to + "" == to;
    AtSpan(s, b + 13, to, "", IsUpperLetter);
  }

  lemma PlayerMatch(s: string, i: nat, player: string, names: string)
    requires At(s, i, PlayerPart(player, names)) && IsDigits(player) && names != [] && !IsSpace(names[0])
    ensures var e := i + 10 + |player|;
      && e <= |s| && At(s, e, names)
      && Span(s, i, IsSpace) == Some(i + 1) && Literal(s, i + 1, "player=") == Some(i + 8)
      && Span(s, i + 8, IsDigit) == Some(e - 2) && Literal(s, e - 2, "]") == Some(e - 1)
      && Span(s, e - 1, IsSpace) == Some(e)
  {
    hide Span, Literal, At;
    var r3 := " " + names;
    var r2 := "]" + r3;
    var r1 := player + r2;
    AtSpace(s, i, "player=" + r1);
    AtLiteral(s, i + 1, "player=", r1);
    AtSpan(s, i + 8, player, r2, IsDigit);
    AtLiteral(s, i + 8 + |player|, "]", r3);
    AtSpace(s, i + 9 + |player|, names);
    AtEnd(s, i + 10 + |player|, names);
  }

  lemma AtEnd(s: string, i: nat, rest: string)
    requires At(s, i, rest)
    ensures i + |rest| == |s|
  {
  }

  lemma CardMatch(s: string, i: nat, card: string, rest: string)
    requires At(s, i, CardPart(card, rest)) && IsCard(card) && rest != [] && !IsWordChar(rest[0])
    ensures var e := i + 8 + |card|;
      && e <= |s| && At(s, e, rest)
      && Span(s, i, IsSpace) == Some(i + 1) && Literal(s, i + 1, "cardId=") == Some(i + 8)
      && Span(s, i + 8, IsWordChar) == Some(e) && s[i + 8..e] == card
  {
    hide Span, Literal, At;
    AtSpace(s, i, "cardId=" + (card + rest));
    AtLiteral(s, i + 1, "cardId=", card + rest);
    AtSpan(s, i + 8, card, rest, IsWordChar);
    AtEnd(s, i + 8 + |card|, rest);
  }

  lemma ZoneMatch(s: string, i: nat, zone: string, position: string, rest: string)
    requires At(s, i, ZonePart(zone, position, rest)) && IsZone(zone) && IsDigits(position)
    requires rest != [] && rest[0] == ' '
    ensures var a, e := i + 6 + |zone|, i + 15 + |zone| + |position|;
      && e <= |s| && At(s, e, rest)
      && Span(s, i, IsSpace) == Some(i + 1) && Literal(s, i + 1, "zone=") == Some(i + 6)
      && Span(s, i + 6, IsUpperLetter) == Some(a) && Span(s, a, IsSpace) == Some(a + 1)
      && Literal(s, a + 1, "zonePos=") == Some(a + 9) && Span(s, a + 9, IsDigit) == Some(e)
  {
    hide Span, Literal, At, PositionPart;
    var part := PositionPart(position, rest);
    PositionStart(position, rest);
    AtSpace(s, i, "zone=" + (zone + part));
    AtLiteral(s, i + 1, "zone=", zone + part);
    AtSpan(s, i + 6, zone, part, IsUpperLetter);
    PositionMatch(s, i + 6 + |zone|, position, rest);
  }

  lemma PositionStart(position: string, rest: string)
    ensures var part := PositionPart(position, rest); part != [] && part[0] == ' '
  {
  }

  lemma PositionMatch(s: string, i: nat, position: string, rest: string)
    requires At(s, i, PositionPart(position, rest)) && IsDigits(position) && rest != [] && rest[0] == ' '
    ensures var e := i + 9 + |position|;
      && e <= |s| && At(s, e, rest)
      && Span(s, i, IsSpace) == Some(i + 1) && Literal(s, i + 1, "zonePos=") == Some(i + 9)
      && Span(s, i + 9, IsDigit) == Some(e)
  {
    hide Span, Literal, At;
    AtSpace(s, i, "zonePos=" + (position + rest));
    AtLiteral(s, i + 1, "zonePos=", position + rest);
    AtSpan(s, i + 9, position, rest, IsDigit);
    AtEnd(s, i + 9 + |position|, rest);
  }

  lemma TailMatch(
    s: string, i: nat, entity: string, zone: string, position: string, card: string, player: string, from: string, to: string)
    requires ZoneFields(entity, zone, position, card, player, from, to) && (i > 0 && i <= |s| ==> !IsWordChar(s[i - 1]))
    requires At(s, i, ZoneTail(entity, zone, position, card, player, from, to))
    ensures ZoneTailAt(s, i) == Some(ZoneMove(entity, card, from, to))
  {
    hide Span, Literal, At, ZoneNames, IsDigits, IsZone, IsCard, Contains, StartsAt, ZonePart, CardPart, PlayerPart, NamesPart;
    var names := NamesPart(from, to);
    var r3 := PlayerPart(player, names);
    var r2 := CardPart(card, r3);
    var r1 := ZonePart(zone, position, r2);
    PartsStart(zone, position, card, player, from, to, names, r3, r2);
    DigitsShape(entity);
    AtEnd(s, i, "id=" + (entity + r1));
    AtLiteral(s, i, "id=", entity + r1);
    AtSpan(s, i + 3, entity, r1, IsDigit);
    var a := i + 3 + |entity|;
    ZoneMatch(s, a, zone, position, r2);
    var b := a + 15 + |zone| + |position|;
    CardMatch(s, b, card, r3);
    var c := b + 8 + |card|;
    PlayerMatch(s, c, player, names);
    NamesMatch(s, c + 10 + |player|, from, to);
  }

  lemma DigitsShape(s: string)
    requires IsDigits(s)
    ensures s != [] && forall c | c in s :: IsDigit(c)
  {
  }

  lemma PartsStart(
    zone: string, position: string, card: string, player: string, from: string, to: string, names: string, r3: string,
    r2: string)
    requires names == NamesPart(from, to) && r3 == PlayerPart(player, names) && r2 == CardPart(card, r3)
    ensures names != [] && names[0] == 'z' && r3 != [] && r3[0] == ' ' && r2 != [] && r2[0] == ' '
    ensures var r1 := ZonePart(zone, position, r2); r1 != [] && r1[0] == ' '
  {
  }

  lemma {:induction false} FirstMatchIs<T>(s: string, i: nat, j: nat, matcher: Matcher<T>)
    requires i <= j <= |s| && matcher(s, j).Some? && forall k | i <= k < j :: matcher(s, k).None?
    ensures FirstMatch(s, i, matcher) == matcher(s, j)
    decreases j - i
  {
    if i < j {
      FirstMatchIs(s, i + 1, j, matcher);
    }
  }

  /** The attributes are found behind a name that has none. */
  lemma NameSkipped(s: string, i: nat, name: string, tail: string)
    requires At(s, i, name + (" " + tail)) && IsName(name) && |tail| > 3 && tail[..3] == "id="
    requires ZoneTailAt(s, i + |name| + 1).Some?
    ensures FirstMatch(s, i, ZoneTailAt) == ZoneTailAt(s, i + |name| + 1)
  {
    hide ZoneTailAt, FirstMatch, At;
    var j := i + |name| + 1;
    AtEnd(s, i, name + (" " + tail));
    forall k | i <= k < j ensures ZoneTailAt(s, k).None? {
      NoEquals(s, i, name, tail, k);
      NoTail(s, k);
    }
    FirstMatchIs(s, i, j, ZoneTailAt);
  }

  lemma NoEquals(s: string, i: nat, name: string, tail: string, k: nat)
    requires At(s, i, name + (" " + tail)) && IsName(name) && |tail| > 3 && tail[..3] == "id=" && i <= k <= i + |name|
    ensures k + 2 < |s| && s[k + 2] != '='
  {
    var rest, at := name + (" " + tail), k + 2 - i;
    assert s[k + 2] == s[i..][at] == rest[at];
    if at < |name| {
      assert rest[at] == name[at] && name[at] in name;
    } else if at == |name| {
      assert rest[at] == ' ';
    } else {
      assert rest[at] == tail[at - |name| - 1] == tail[..3][at - |name| - 1];
    }
  }

  lemma NoTail(s: string, k: nat)
    requires k + 2 < |s| && s[k + 2] != '='
    ensures ZoneTailAt(s, k).None?
  {
    assert s[k..k + 3][2] == s[k + 2];
    assert Literal(s, k, "id=").None?;
  }

  /** What is captured from a zone line. */
  lemma ZoneCaptured(
    before: string, name: string, entity: string, zone: string, position: string, card: string, player: string,
    from: string, to: string)
    requires '[' !in before && IsName(name) && ZoneFields(entity, zone, position, card, player, from, to)
    ensures ClassifyZone(ZoneText(before, name, entity, zone, position, card, player, from, to))
         == Some(ZoneMove(entity, card, from, to))
  {
    hide ZoneTail, Literal, ZoneFields, FirstMatch, ZoneTailAt;
    var s := ZoneText(before, name, entity, zone, position, card, player, from, to);
    var tail := ZoneTail(entity, zone, position, card, player, from, to);
    TailStart(entity, zone, position, card, player, from, to);
    var j := |before|;
    assert At(s, j, "[entityName=" + (name + (" " + tail)));
    AtLiteral(s, j, "[entityName=", name + (" " + tail));
    var a := j + 12;
    var e := a + |name| + 1;
    AtStep(s, a, name, " " + tail);
    AtStep(s, a + |name|, " ", tail);
    assert s[e - 1] == s[a + |name|..a + |name| + 1][0] == ' ';
    TailMatch(s, e, entity, zone, position, card, player, from, to);
    NameSkipped(s, a, name, tail);
    forall k | 0 <= k < j ensures ZoneMoveAt(s, k).None? {
      assert s[k] == before[k] && before[k] in before;
      NoBracket(s, k);
    }
    FirstMatchIs(s, 0, j, ZoneMoveAt);
  }

  lemma NoBracket(s: string, k: nat)
    requires k < |s| && s[k] != '['
    ensures Literal(s, k, "[entityName=").None?
  {
    assert k + 12 <= |s| ==> s[k..k + 12][0] == s[k];
  }

  lemma TailStart(entity: string, zone: string, position: string, card: string, player: string, from: string, to: string)
    ensures var tail := ZoneTail(entity, zone, position, card, player, from, to); |tail| > 3 && tail[..3] == "id="
  {
    hide PlayerPart, CardPart, NamesPart;
  }

  /** A zone line says exactly which entity, with which card, went from where to where, if the deck is one of the two
      zones and the entity number fits 32 bits; otherwise it says nothing. */
  lemma ZoneTextParses(
    p: ParserState, line: RawLogLine, before: string, name: string, entity: string, zone: string, position: string,
    card: string, player: string, from: string, to: string)
    requires '[' !in before && IsName(name) && ZoneFields(entity, zone, position, card, player, from, to)
    requires line.component.Zone? && line.message == ZoneText(before, name, entity, zone, position, card, player, from, to)
    ensures Parse(p, line) == (p,
      if (from == "DECK" || to == "DECK") && Number(entity) < 0x1_0000_0000
      then [FriendlyCardZoneChanged(Number(entity), card, from, to)] else [])
  {
    hide ClassifyZone, ZoneText;
    ZoneCaptured(before, name, entity, zone, position, card, player, from, to);
    UpperDeck(from);
    UpperDeck(to);
  }

  // Arena lines.

  /** Text in which no message of the arena can begin. */
  predicate IsQuiet(s: string) { 'D' !in s && 'O' !in s && 'C' !in s && 'S' !in s }

  /** Letters in upper case, digits and underscores. */
  predicate IsCode(s: string) { s != [] && forall c | c in s :: IsCardChar(c) }

  /** A fixed text followed by a code does not hold a literal whose second letter is in lower case, if that differs
      from the fixed text wherever the first two letters agree. */
  lemma CodeLacks(before: string, fixed: string, word: string, literal: string, j: nat)
    requires (forall c | c in word :: IsCardChar(c)) && 1 < j < |literal| && IsLowerLetter(literal[1])
    requires literal[0] !in before
    requires forall k | 0 <= k < |fixed| - 1 ::
      fixed[k] != literal[0] || fixed[k + 1] != literal[1] || (k + j < |fixed| && fixed[k + j] != literal[j])
    requires fixed != [] && fixed[|fixed| - 1] != literal[0]
    ensures !Contains(before + (fixed + word), literal)
  {
    var s := before + (fixed + word);
    forall i | 0 <= i <= |s| ensures !StartsAt(s, literal, i) {
      if i + |literal| <= |s| {
        var piece := s[i..i + |literal|];
        assert piece[0] == s[i] && piece[1] == s[i + 1] && piece[j] == s[i + j];
        if i < |before| {
          assert s[i] == before[i] && before[i] in before;
        } else {
          var k := i - |before|;
          assert s[i] == (fixed + word)[k] && s[i + 1] == (fixed + word)[k + 1] && s[i + j] == (fixed + word)[k + j];
          if k + 1 >= |fixed| {
            assert k >= |fixed| ==> s[i + 1] == word[k + 1 - |fixed|] && word[k + 1 - |fixed|] in word;
          }
        }
      }
    }
  }

  lemma LackingIsNone(s: string, matcher: Matcher<ArenaLine>, literal: string)
    requires !Contains(s, literal) && forall t, i :: matcher(t, i).Some? ==> StartsAt(t, literal, i)
    ensures FirstMatch(s, 0, matcher).None?
  {
    PatternFound(s, matcher, literal);
  }

  /** The first match stands where the message begins. */
  lemma QuietSkipped(before: string, text: string, matcher: Matcher<ArenaLine>, literal: string)
    requires literal != [] && literal[0] !in before && matcher(before + text, |before|).Some?
    requires forall t, i :: matcher(t, i).Some? ==> StartsAt(t, literal, i)
    ensures FirstMatch(before + text, 0, matcher) == matcher(before + text, |before|)
  {
    var s := before + text;
    forall k | 0 <= k < |before| ensures matcher(s, k).None? {
      assert s[k] == before[k] && before[k] in before;
      assert k + |literal| <= |s| ==> s[k..k + |literal|][0] == s[k];
    }
    FirstMatchIs(s, 0, |before|, matcher);
  }

  lemma AtText(before: string, text: string)
    ensures At(before + text, |before|, text)
  {
  }

  lemma CodesAreWords(s: string)
    requires IsCode(s)
    ensures s != [] && !IsSpace(s[0]) && forall c | c in s :: IsCardChar(c)
  {
    assert s[0] in s;
  }

  lemma DigitsAreCodes(s: string)
    requires IsDigits(s)
    ensures IsCode(s) && !IsSpace(s[0])
  {
    assert s[0] in s;
  }

  // A snapshot header.

  function HeroPart(hero: Option<string>): string {
    if hero.Some? then ", Hero Card = " + ("HERO_" + hero.value) else ""
  }

  function HeroName(hero: Option<string>): Option<string> {
    if hero.Some? then Some("HERO_" + hero.value) else None
  }

  function HeaderText(id: string, hero: Option<string>): string {
    "Draft Deck ID:" + (" " + (id + HeroPart(hero)))
  }

  lemma HeroMatch(s: string, i: nat, hero: Option<string>)
    requires At(s, i, HeroPart(hero)) && (hero.Some? ==> IsCode(hero.value))
    ensures HeroAfter(s, i) == HeroName(hero)
  {
    hide Span, At, StartsAt;
    match hero
    case None => EmptyRest(s, i);
    case Some(code) =>
      CodesAreWords(code);
      assert ", Hero Card = " + ("HERO_" + code) == "," + (" " + ("Hero Card" + (" " + ("=" + (" " + ("HERO_" + code))))));
      AtLiteral(s, i, ",", " " + ("Hero Card" + (" " + ("=" + (" " + ("HERO_" + code))))));
      AtSpace(s, i + 1, "Hero Card" + (" " + ("=" + (" " + ("HERO_" + code)))));
      AtLiteral(s, i + 2, "Hero Card", " " + ("=" + (" " + ("HERO_" + code))));
      AtSpace(s, i + 11, "=" + (" " + ("HERO_" + code)));
      AtLiteral(s, i + 12, "=", " " + ("HERO_" + code));
      AtSpace(s, i + 13, "HERO_" + code);
      HeroIs(s, i + 14, code);
  }

  lemma EmptyRest(s: string, i: nat)
    requires At(s, i, "")
    ensures i == |s| && Literal(s, i, ",").None?
  {
  }

  lemma HeroIs(s: string, i: nat, code: string)
    requires At(s, i, "HERO_" + code) && IsCode(code)
    ensures HeroIdAt(s, i) == Some("HERO_" + code)
  {
    hide Span, StartsAt;
    CodesAreWords(code);
    AtLiteral(s, i, "HERO_", code);
    assert code + "" == code;
    AtSpan(s, i + 5, code, "", IsCardChar);
    AtEnd(s, i, "HERO_" + code);
    assert s[i..i + 5 + |code|] == s[i..];
  }

  lemma HeaderMatch(s: string, i: nat, id: string, hero: Option<string>)
    requires At(s, i, HeaderText(id, hero)) && IsDigits(id) && (hero.Some? ==> IsCode(hero.value))
    ensures DraftDeckAt(s, i) == Some(DraftDeck(id, HeroName(hero)))
  {
    hide Span, HeroAfter, At, HeroPart, StartsAt;
    DigitsAreCodes(id);
    HeroPartStarts(hero);
    AtEnd(s, i, HeaderText(id, hero));
    AtLiteral(s, i, DRAFT_DECK, " " + (id + HeroPart(hero)));
    AtSpace(s, i + 14, id + HeroPart(hero));
    AtSpan(s, i + 15, id, HeroPart(hero), IsDigit);
    HeroMatch(s, i + 15 + |id|, hero);
  }

  /** A snapshot header names its deck and, if it has one, its hero. */
  lemma HeaderTextParses(before: string, id: string, hero: Option<string>)
    requires IsQuiet(before) && IsDigits(id) && (hero.Some? ==> IsCode(hero.value))
    ensures ClassifyArena(before + HeaderText(id, hero)) == DraftDeck(id, HeroName(hero))
  {
    hide RunBeginAt, RedraftBeginAt, HeroChosenAt, DeckContainsAt, ClientChoiceAt, ModeSetAt, FirstMatch, At, HeaderText;
    var text := HeaderText(id, hero);
    var s, i := before + text, |before|;
    AtText(before, text);
    HeaderMatch(s, i, id, hero);
    QuietSkipped(before, text, DraftDeckAt, DRAFT_DECK);
  }

  lemma HeroPartStarts(hero: Option<string>)
    ensures HeroPart(hero) == [] || HeroPart(hero)[0] == ','
  {
  }

  // Run starts and Redraft boundaries.

  const NEW_DECK: string := "Got new draft deck with ID:"

  const NEW_REDRAFT: string := "Got new redraft deck with ID:"

  function RunText(id: string): string { ON_BEGIN + (" " + ("-" + (" " + (NEW_DECK + (" " + id))))) }

  function RedraftText(id: string): string { ON_REDRAFT_BEGIN + (" " + ("-" + (" " + (NEW_REDRAFT + (" " + id))))) }

  lemma DashedMatch(s: string, i: nat, phrase: string, id: string)
    requires At(s, i, " " + ("-" + (" " + (phrase + (" " + id))))) && IsDigits(id) && phrase != [] && !IsSpace(phrase[0])
    ensures DashedId(s, i, phrase) == Some(id)
  {
    hide Span, At, StartsAt;
    DigitsAreCodes(id);
    var r2 := phrase + (" " + id);
    var r1 := " " + r2;
    AtSpace(s, i, "-" + r1);
    AtLiteral(s, i + 1, "-", r1);
    AtSpace(s, i + 2, r2);
    AtLiteral(s, i + 3, phrase, " " + id);
    AtSpace(s, i + 3 + |phrase|, id);
    assert id + "" == id;
    AtSpan(s, i + 4 + |phrase|, id, "", IsDigit);
  }

  const RUN_FIXED: string := ON_BEGIN + " - " + NEW_DECK + " "

  const REDRAFT_FIXED: string := ON_REDRAFT_BEGIN + " - " + NEW_REDRAFT + " "

  lemma DashedShape(name: string, phrase: string, id: string)
    ensures name + (" " + ("-" + (" " + (phrase + (" " + id))))) == (name + " - " + phrase + " ") + id
  {
    assert " " + ("-" + (" " + (phrase + (" " + id)))) == " - " + (phrase + (" " + id));
  }

  lemma RunLacks(before: string, id: string)
    requires IsQuiet(before) && IsDigits(id)
    ensures !Contains(before + RunText(id), DRAFT_DECK)
  {
    hide Contains;
    DashedShape(ON_BEGIN, NEW_DECK, id);
    DigitsAreCodes(id);
    CodesAreWords(id);
    CodeLacks(before, RUN_FIXED, id, DRAFT_DECK, 2);
  }

  lemma RedraftLacks(before: string, id: string)
    requires IsQuiet(before) && IsDigits(id)
    ensures !Contains(before + RedraftText(id), DRAFT_DECK) && !Contains(before + RedraftText(id), ON_BEGIN)
  {
    hide Contains;
    DashedShape(ON_REDRAFT_BEGIN, NEW_REDRAFT, id);
    DigitsAreCodes(id);
    CodesAreWords(id);
    CodeLacks(before, REDRAFT_FIXED, id, DRAFT_DECK, 2);
    RedraftIsNoBegin(before, id);
  }

  lemma RedraftIsNoBegin(before: string, id: string)
    requires IsQuiet(before) && IsDigits(id)
    ensures !Contains(before + RedraftText(id), ON_BEGIN)
  {
    hide Contains;
    DashedShape(ON_REDRAFT_BEGIN, NEW_REDRAFT, id);
    DigitsAreCodes(id);
    CodesAreWords(id);
    CodeLacks(before, REDRAFT_FIXED, id, ON_BEGIN, 2);
  }

  lemma RunTextParses(before: string, id: string)
    requires IsQuiet(before) && IsDigits(id)
    ensures ClassifyArena(before + RunText(id)) == RunBegin(id)
  {
    hide DraftDeckAt, RedraftBeginAt, HeroChosenAt, DeckContainsAt, ClientChoiceAt, ModeSetAt, FirstMatch, DashedId, At, Contains;
    var text := RunText(id);
    RunLacks(before, id);
    LackingIsNone(before + text, DraftDeckAt, DRAFT_DECK);
    AtText(before, text);
    AtLiteral(before + text, |before|, ON_BEGIN, " " + ("-" + (" " + (NEW_DECK + (" " + id)))));
    DashedMatch(before + text, |before| + 7, NEW_DECK, id);
    QuietSkipped(before, text, RunBeginAt, ON_BEGIN);
  }

  lemma RedraftTextParses(before: string, id: string)
    requires IsQuiet(before) && IsDigits(id)
    ensures ClassifyArena(before + RedraftText(id)) == RedraftBegin
  {
    hide DraftDeckAt, RunBeginAt, HeroChosenAt, DeckContainsAt, ClientChoiceAt, ModeSetAt, FirstMatch, DashedId, At, Contains;
    var text := RedraftText(id);
    RedraftLacks(before, id);
    LackingIsNone(before + text, DraftDeckAt, DRAFT_DECK);
    LackingIsNone(before + text, RunBeginAt, ON_BEGIN);
    AtText(before, text);
    AtLiteral(before + text, |before|, ON_REDRAFT_BEGIN, " " + ("-" + (" " + (NEW_REDRAFT + (" " + id)))));
    DashedMatch(before + text, |before| + 14, NEW_REDRAFT, id);
    QuietSkipped(before, text, RedraftBeginAt, ON_REDRAFT_BEGIN);
  }

  // Confirmed heroes, listed cards and modes: a fixed text and a code.

  function ChosenText(code: string): string { "OnChosen()" + (":" + (" " + ("hero=" + ("HERO_" + code)))) }

  function ListedText(card: string): string { "Draft deck contains card" + (" " + card) }

  function ModeText(mode: string): string { "SetDraftMode" + (" " + ("-" + (" " + mode))) }

  const CHOSEN_FIXED: string := "OnChosen(): hero=HERO_"

  const LISTED_FIXED: string := "Draft deck contains card "

  const MODE_FIXED: string := "SetDraftMode - "

  lemma CodeTextShapes(word: string)
    ensures ChosenText(word) == CHOSEN_FIXED + word && ListedText(word) == LISTED_FIXED + word
    ensures ModeText(word) == MODE_FIXED + word
  {
  }

  lemma ChosenLacks(before: string, code: string)
    requires IsQuiet(before) && IsCode(code)
    ensures var s := before + ChosenText(code);
      !Contains(s, DRAFT_DECK) && !Contains(s, ON_BEGIN) && !Contains(s, ON_REDRAFT_BEGIN)
  {
    hide Contains;
    CodeTextShapes(code);
    CodesAreWords(code);
    CodeLacks(before, CHOSEN_FIXED, code, DRAFT_DECK, 2);
    CodeLacks(before, CHOSEN_FIXED, code, ON_BEGIN, 2);
    CodeLacks(before, CHOSEN_FIXED, code, ON_REDRAFT_BEGIN, 2);
  }

  lemma ListedLacks(before: string, card: string)
    requires IsQuiet(before) && IsCode(card)
    ensures var s := before + ListedText(card);
      && !Contains(s, DRAFT_DECK) && !Contains(s, ON_BEGIN) && !Contains(s, ON_REDRAFT_BEGIN) && !Contains(s, ON_CHOSEN)
  {
    hide Contains;
    CodeTextShapes(card);
    CodesAreWords(card);
    CodeLacks(before, LISTED_FIXED, card, DRAFT_DECK, 6);
    CodeLacks(before, LISTED_FIXED, card, ON_BEGIN, 2);
    CodeLacks(before, LISTED_FIXED, card, ON_REDRAFT_BEGIN, 2);
    CodeLacks(before, LISTED_FIXED, card, ON_CHOSEN, 2);
  }

  predicate IsMode(s: string) { s != [] && forall c | c in s :: IsModeChar(c) }

  lemma ModesAreCodes(mode: string)
    requires IsMode(mode)
    ensures IsCode(mode)
  {
  }

  lemma ModeLacks(before: string, mode: string)
    requires IsQuiet(before) && IsMode(mode)
    ensures var s := before + ModeText(mode);
      && !Contains(s, DRAFT_DECK) && !Contains(s, ON_BEGIN) && !Contains(s, ON_REDRAFT_BEGIN) && !Contains(s, ON_CHOSEN)
      && !Contains(s, DRAFT_CARD) && !Contains(s, CLIENT_CHOOSES)
  {
    hide Contains;
    CodeTextShapes(mode);
    ModesAreCodes(mode);
    CodesAreWords(mode);
    CodeLacks(before, MODE_FIXED, mode, DRAFT_DECK, 5);
    CodeLacks(before, MODE_FIXED, mode, ON_BEGIN, 2);
    CodeLacks(before, MODE_FIXED, mode, ON_REDRAFT_BEGIN, 2);
    CodeLacks(before, MODE_FIXED, mode, ON_CHOSEN, 2);
    CodeLacks(before, MODE_FIXED, mode, DRAFT_CARD, 5);
    CodeLacks(before, MODE_FIXED, mode, CLIENT_CHOOSES, 2);
  }

  /** A confirmed hero is captured with its id. */
  lemma ChosenTextParses(before: string, code: string)
    requires IsQuiet(before) && IsCode(code)
    ensures ClassifyArena(before + ChosenText(code)) == HeroChosen("HERO_" + code)
  {
    hide DraftDeckAt, RunBeginAt, RedraftBeginAt, DeckContainsAt, ClientChoiceAt, ModeSetAt, FirstMatch, HeroIdAt, At, Contains;
    var text := ChosenText(code);
    var s, i := before + text, |before|;
    ChosenLacks(before, code);
    LackingIsNone(s, DraftDeckAt, DRAFT_DECK);
    LackingIsNone(s, RunBeginAt, ON_BEGIN);
    LackingIsNone(s, RedraftBeginAt, ON_REDRAFT_BEGIN);
    AtText(before, text);
    AtLiteral(s, i, ON_CHOSEN, ":" + (" " + ("hero=" + ("HERO_" + code))));
    AtLiteral(s, i + 10, ":", " " + ("hero=" + ("HERO_" + code)));
    AtSpace(s, i + 11, "hero=" + ("HERO_" + code));
    AtLiteral(s, i + 12, "hero=", "HERO_" + code);
    HeroIs(s, i + 17, code);
    QuietSkipped(before, text, HeroChosenAt, ON_CHOSEN);
  }

  /** A listed card is captured. */
  lemma ListedTextParses(before: string, card: string)
    requires IsQuiet(before) && IsCode(card)
    ensures ClassifyArena(before + ListedText(card)) == DeckContains(card)
  {
    hide DraftDeckAt, RunBeginAt, RedraftBeginAt, HeroChosenAt, ClientChoiceAt, ModeSetAt, FirstMatch, At, Contains, Span;
    var text := ListedText(card);
    var s, i := before + text, |before|;
    ListedLacks(before, card);
    LackingIsNone(s, DraftDeckAt, DRAFT_DECK);
    LackingIsNone(s, RunBeginAt, ON_BEGIN);
    LackingIsNone(s, RedraftBeginAt, ON_REDRAFT_BEGIN);
    LackingIsNone(s, HeroChosenAt, ON_CHOSEN);
    CodesAreWords(card);
    AtText(before, text);
    AtLiteral(s, i, DRAFT_CARD, " " + card);
    AtSpace(s, i + 24, card);
    assert card + "" == card;
    AtSpan(s, i + 25, card, "", IsCardChar);
    QuietSkipped(before, text, DeckContainsAt, DRAFT_CARD);
  }

  lemma ModeMatch(s: string, i: nat, mode: string)
    requires At(s, i, ModeText(mode)) && IsMode(mode)
    ensures ModeSetAt(s, i) == Some(ModeSet(mode))
  {
    hide At, Span, Contains, StartsAt;
    ModesAreCodes(mode);
    CodesAreWords(mode);
    AtEnd(s, i, ModeText(mode));
    AtLiteral(s, i, SET_DRAFT_MODE, " " + ("-" + (" " + mode)));
    AtSpace(s, i + 12, "-" + (" " + mode));
    AtLiteral(s, i + 13, "-", " " + mode);
    AtSpace(s, i + 14, mode);
    assert mode + "" == mode;
    AtSpan(s, i + 15, mode, "", IsModeChar);
  }

  /** A draft mode is captured. */
  lemma ModeTextParses(before: string, mode: string)
    requires IsQuiet(before) && IsMode(mode)
    ensures ClassifyArena(before + ModeText(mode)) == ModeSet(mode)
  {
    hide DraftDeckAt, RunBeginAt, RedraftBeginAt, HeroChosenAt, DeckContainsAt, ClientChoiceAt, FirstMatch, At, Contains,
      ModeText;
    var text := ModeText(mode);
    var s, i := before + text, |before|;
    ModeLacks(before, mode);
    LackingIsNone(s, DraftDeckAt, DRAFT_DECK);
    LackingIsNone(s, RunBeginAt, ON_BEGIN);
    LackingIsNone(s, RedraftBeginAt, ON_REDRAFT_BEGIN);
    LackingIsNone(s, HeroChosenAt, ON_CHOSEN);
    LackingIsNone(s, DeckContainsAt, DRAFT_CARD);
    LackingIsNone(s, ClientChoiceAt, CLIENT_CHOOSES);
    AtText(before, text);
    ModeMatch(s, i, mode);
    QuietSkipped(before, text, ModeSetAt, SET_DRAFT_MODE);
  }

  // Choices.

  function ChoiceText(name: string, card: string): string { CLIENT_CHOOSES + (name + ("(" + (card + ")"))) }

  lemma NoParenthesis(s: string, i: nat, name: string, rest: string, k: nat)
    requires At(s, i, name + rest) && '(' !in name && i <= k < i + |name|
    ensures LastParenthesised(s, k).None?
  {
    AtStep(s, i, name, rest);
    assert s[k] == s[i..i + |name|][k - i] && s[i..i + |name|][k - i] in name;
    assert s[k..k + 1][0] == s[k];
  }

  /** The card of a choice is what stands in the parentheses at its end, whatever the card is called, unless its name
      spells another message. */
  lemma ChoiceTextParses(before: string, name: string, card: string)
    requires IsQuiet(before) && '(' !in name && IsCode(card)
    requires var s := before + ChoiceText(name, card);
      && !Contains(s, DRAFT_DECK) && !Contains(s, ON_BEGIN) && !Contains(s, ON_REDRAFT_BEGIN) && !Contains(s, ON_CHOSEN)
      && !Contains(s, DRAFT_CARD)
    ensures ClassifyArena(before + ChoiceText(name, card)) == ClientChoice(card)
  {
    hide DraftDeckAt, RunBeginAt, RedraftBeginAt, HeroChosenAt, DeckContainsAt, ModeSetAt, FirstMatch, At, Contains, Span,
      LastParenthesised;
    var text := ChoiceText(name, card);
    var s, i := before + text, |before|;
    LackingIsNone(s, DraftDeckAt, DRAFT_DECK);
    LackingIsNone(s, RunBeginAt, ON_BEGIN);
    LackingIsNone(s, RedraftBeginAt, ON_REDRAFT_BEGIN);
    LackingIsNone(s, HeroChosenAt, ON_CHOSEN);
    LackingIsNone(s, DeckContainsAt, DRAFT_CARD);
    AtText(before, text);
    AtLiteral(s, i, CLIENT_CHOOSES, name + ("(" + (card + ")")));
    var a := i + |CLIENT_CHOOSES|;
    AtStep(s, a, name, "(" + (card + ")"));
    ParenthesesMatch(s, a + |name|, card);
    forall k | a <= k < a + |name| ensures LastParenthesised(s, k).None? {
      NoParenthesis(s, a, name, "(" + (card + ")"), k);
    }
    FirstMatchIs(s, a, a + |name|, LastParenthesised);
    QuietSkipped(before, text, ClientChoiceAt, CLIENT_CHOOSES);
  }

  lemma ParenthesesMatch(s: string, i: nat, card: string)
    requires At(s, i, "(" + (card + ")")) && IsCode(card)
    ensures LastParenthesised(s, i) == Some(card)
  {
    hide Span, At, StartsAt;
    CodesAreWords(card);
    AtLiteral(s, i, "(", card + ")");
    AtSpan(s, i + 1, card, ")", IsCardChar);
    var end := i + 1 + |card|;
    assert ")" + "" == ")";
    AtLiteral(s, end, ")", "");
    AtWord(s, end + 1, "");
    AtEnd(s, end + 1, "");
  }

  // LoadingScreen and Power lines.

  lemma Lacks(s: string, literal: string, c: char)
    requires c in literal && c !in s
    ensures !Contains(s, literal)
  {
    var k :| 0 <= k < |literal| && literal[k] == c;
    forall i | 0 <= i <= |s| ensures !StartsAt(s, literal, i) {
      if i + |literal| <= |s| {
        assert s[i..i + |literal|][k] == s[i + k] && s[i + k] in s;
      }
    }
  }

  lemma UpperAgain(s: string)
    requires forall c | c in s :: !IsLowerLetter(c)
    ensures Upper(s) == s
  {
    forall i | 0 <= i < |s| ensures Upper(s)[i] == s[i] {
      assert s[i] in s;
    }
  }

  /** What the screens say. */
  lemma ScreenTextsParse()
    ensures ParseLoadingScreen("HUB -> GAMEPLAY") == [GameStarted]
    ensures ParseLoadingScreen("GAMEPLAY -> HUB") == [GameEnded(GameResult.Unknown)]
    ensures ParseLoadingScreen("HUB -> ARENA") == [GameModeSeen("ARENA")]
  {
    hide Contains, Upper;
    var start, end, arena := "HUB -> GAMEPLAY", "GAMEPLAY -> HUB", "HUB -> ARENA";
    UpperAgain(start);
    UpperAgain(end);
    UpperAgain(arena);
    Lacks(start, "ARENA", 'R');
    Lacks(end, "ARENA", 'R');
    Lacks(arena, "HUB -> GAMEPLAY", 'G');
    Lacks(arena, "GAMEPLAY -> HUB", 'G');
    Whole(start);
    Whole(end);
    Differs(end, "HUB -> GAMEPLAY");
    Ends("HUB -> ", "ARENA");
    assert "HUB -> " + "ARENA" == arena;
  }

  lemma Whole(s: string)
    ensures Contains(s, s)
  {
    assert StartsAt(s, s, 0);
  }

  lemma Ends(before: string, literal: string)
    ensures Contains(before + literal, literal)
  {
    assert StartsAt(before + literal, literal, |before|);
  }

  lemma Differs(s: string, literal: string)
    requires |s| == |literal| && s != literal
    ensures !Contains(s, literal)
  {
    assert s[0..|s|] == s;
  }

  /** What the game's own log says. */
  lemma GameTextsParse()
    ensures ParsePower("CREATE_GAME") == [GameStarted]
    ensures ParsePower("PLAYSTATE=WON") == [GameEnded(GameResult.Unknown)]
    ensures ParsePower("PLAYSTATE=LOST") == []
  {
    hide Contains, Upper;
    var won, lost := "PLAYSTATE=WON", "PLAYSTATE=LOST";
    UpperAgain("CREATE_GAME");
    UpperAgain(won);
    UpperAgain(lost);
    Whole("CREATE_GAME");
    Lacks(won, "CREATE_GAME", 'C');
    Lacks(lost, "CREATE_GAME", 'C');
    Lacks(lost, "WON", 'W');
    Ends("PLAYSTATE=", "WON");
    assert "PLAYSTATE=" + "WON" == won;
    StartsText(won, "PLAYSTATE");
  }

  lemma StartsText(s: string, literal: string)
    requires literal <= s
    ensures Contains(s, literal)
  {
    assert StartsAt(s, literal, 0);
  }
}
