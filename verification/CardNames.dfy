/** Card names read by OCR: normalisation, the two-row edit distance and the lookups built on them. */
module CardNames {
  import opened Prelude
  import opened Text

  // Edit scripts.

  datatype Edit = Keep(c: char) | Insert(c: char) | Delete(c: char) | Substitute(from: char, to: char)

  /** The characters of the left word an edit uses up. */
  function Consumed(edit: Edit): string {
    match edit
    case Keep(c) => [c]
    case Insert(_) => []
    case Delete(c) => [c]
    case Substitute(from, _) => [from]
  }

  /** The characters of the right word it writes. */
  function Produced(edit: Edit): string {
    match edit
    case Keep(c) => [c]
    case Insert(c) => [c]
    case Delete(_) => []
    case Substitute(_, to) => [to]
  }

  function Source(script: seq<Edit>): string {
    if script == [] then [] else Consumed(script[0]) + Source(script[1..])
  }

  function Target(script: seq<Edit>): string {
    if script == [] then [] else Produced(script[0]) + Target(script[1..])
  }

  function Cost(script: seq<Edit>): nat {
    if script == [] then 0 else (if script[0].Keep? then 0 else 1) + Cost(script[1..])
  }

  predicate Edits(script: seq<Edit>, left: string, right: string) {
    Source(script) == left && Target(script) == right
  }

  lemma {:induction false} ScriptConcat(a: seq<Edit>, b: seq<Edit>)
    ensures Source(a + b) == Source(a) + Source(b) && Target(a + b) == Target(a) + Target(b)
    ensures Cost(a + b) == Cost(a) + Cost(b)
  {
    hide Consumed, Produced;
    if a == [] {
      assert a + b == b;
    } else {
      assert (a + b)[0] == a[0] && (a + b)[1..] == a[1..] + b;
      ScriptConcat(a[1..], b);
      assert Consumed(a[0]) + (Source(a[1..]) + Source(b)) == (Consumed(a[0]) + Source(a[1..])) + Source(b);
      assert Produced(a[0]) + (Target(a[1..]) + Target(b)) == (Produced(a[0]) + Target(a[1..])) + Target(b);
    }
  }

  lemma OneEdit(edit: Edit)
    ensures Source([edit]) == Consumed(edit) && Target([edit]) == Produced(edit)
    ensures Cost([edit]) == if edit.Keep? then 0 else 1
  {
    assert [edit][1..] == [];
  }

  lemma ScriptSnoc(script: seq<Edit>, last: Edit)
    ensures Source(script + [last]) == Source(script) + Consumed(last)
    ensures Target(script + [last]) == Target(script) + Produced(last)
    ensures Cost(script + [last]) == Cost(script) + (if last.Keep? then 0 else 1)
  {
    ScriptConcat(script, [last]);
    OneEdit(last);
  }

  // The distance.

  /** The recurrence behind the two-row table: the last characters are matched, dropped or added. */
  function Distance(left: string, right: string): nat
    decreases |left| + |right|
  {
    if left == [] then |right|
    else if right == [] then |left|
    else
      var l, r := left[..|left| - 1], right[..|right| - 1];
      Min(Min(Distance(left, r) + 1, Distance(l, right) + 1),
          Distance(l, r) + (if left[|left| - 1] == right[|right| - 1] then 0 else 1))
  }

  lemma SplitLast(s: string)
    requires s != []
    ensures s == s[..|s| - 1] + [s[|s| - 1]]
  {
  }

  /** One more edit changes the distance by at most its cost. */
  lemma DistanceStep(left: string, right: string, c: char, d: char)
    ensures Distance(left + [c], right) <= Distance(left, right) + 1
    ensures Distance(left, right + [d]) <= Distance(left, right) + 1
    ensures Distance(left + [c], right + [d]) <= Distance(left, right) + (if c == d then 0 else 1)
  {
    assert (left + [c])[..|left|] == left && (right + [d])[..|right|] == right;
  }

  /** No edit script is cheaper than the distance. */
  lemma {:induction false} NoCheaperScript(script: seq<Edit>)
    ensures Cost(script) >= Distance(Source(script), Target(script))
    decreases |script|
  {
    hide Distance;
    if script == [] {
      EmptyDistance();
    } else {
      var init, last := script[..|script| - 1], script[|script| - 1];
      assert script == init + [last];
      NoCheaperScript(init);
      ScriptSnoc(init, last);
      var l, r := Source(init), Target(init);
      match last
      case Keep(c) => DistanceStep(l, r, c, c);
      case Insert(c) => DistanceStep(l, r, c, c); assert Source(script) == l + [] == l;
      case Delete(c) => DistanceStep(l, r, c, c); assert Target(script) == r + [] == r;
      case Substitute(from, to) => DistanceStep(l, r, from, to);
    }
  }

  lemma EmptyDistance()
    ensures Distance([], []) == 0
  {
  }

  lemma {:induction false} AllInserted(s: string) returns (script: seq<Edit>)
    ensures Edits(script, [], s) && Cost(script) == |s|
  {
    if s == [] {
      script := [];
    } else {
      var rest := AllInserted(s[1..]);
      script := [Insert(s[0])] + rest;
      assert script[1..] == rest;
    }
  }

  /** Some edit script costs exactly the distance. */
  lemma {:induction false} CheapestScript(left: string, right: string) returns (script: seq<Edit>)
    ensures Edits(script, left, right) && Cost(script) == Distance(left, right)
    decreases |left| + |right|
  {
    if left == [] {
      script := AllInserted(right);
    } else if right == [] {
      var inserted := AllInserted(left);
      script := Inverse(inserted);
      InverseEdits(inserted);
    } else {
      var l, r := left[..|left| - 1], right[..|right| - 1];
      var c, d := left[|left| - 1], right[|right| - 1];
      SplitLast(left);
      SplitLast(right);
      var matched := Distance(l, r) + (if c == d then 0 else 1);
      if Distance(left, right) == matched {
        var init := CheapestScript(l, r);
        ScriptSnoc(init, if c == d then Keep(c) else Substitute(c, d));
        script := init + [if c == d then Keep(c) else Substitute(c, d)];
      } else if Distance(left, right) == Distance(l, right) + 1 {
        var init := CheapestScript(l, right);
        ScriptSnoc(init, Delete(c));
        script := init + [Delete(c)];
      } else {
        var init := CheapestScript(left, r);
        ScriptSnoc(init, Insert(d));
        script := init + [Insert(d)];
      }
    }
  }

  function InverseEdit(edit: Edit): Edit {
    match edit
    case Keep(c) => Keep(c)
    case Insert(c) => Delete(c)
    case Delete(c) => Insert(c)
    case Substitute(from, to) => Substitute(to, from)
  }

  function Inverse(script: seq<Edit>): seq<Edit> {
    if script == [] then [] else [InverseEdit(script[0])] + Inverse(script[1..])
  }

  lemma {:induction false} InverseEdits(script: seq<Edit>)
    ensures Edits(Inverse(script), Target(script), Source(script)) && Cost(Inverse(script)) == Cost(script)
  {
    if script != [] {
      InverseEdits(script[1..]);
      assert Inverse(script)[1..] == Inverse(script[1..]);
    }
  }

  // A metric.

  lemma {:induction false} DistanceSymmetric(left: string, right: string)
    ensures Distance(left, right) == Distance(right, left)
  {
    DistanceAtMost(left, right);
    DistanceAtMost(right, left);
  }

  lemma {:induction false} DistanceAtMost(left: string, right: string)
    ensures Distance(right, left) <= Distance(left, right)
  {
    var script := CheapestScript(left, right);
    InverseEdits(script);
    NoCheaperScript(Inverse(script));
  }

  lemma {:induction false} FreeScriptKeeps(script: seq<Edit>)
    ensures Cost(script) == 0 ==> Source(script) == Target(script)
  {
    if script != [] {
      FreeScriptKeeps(script[1..]);
    }
  }

  lemma {:induction false} DistanceToSelf(s: string)
    ensures Distance(s, s) == 0
  {
    if s != [] {
      DistanceToSelf(s[..|s| - 1]);
    }
  }

  lemma {:induction false} DistanceZeroIff(left: string, right: string)
    ensures Distance(left, right) == 0 <==> left == right
  {
    DistanceToSelf(left);
    var script := CheapestScript(left, right);
    FreeScriptKeeps(script);
  }

  /** A step that produces a character and a step that consumes it. */
  function Joined(a: Edit, b: Edit): seq<Edit>
    requires !a.Delete? && !b.Insert?
  {
    match (a, b)
    case (Keep(_), _) => [b]
    case (Insert(_), Delete(_)) => []
    case (Insert(_), Substitute(_, to)) => [Insert(to)]
    case (Substitute(from, _), Delete(_)) => [Delete(from)]
    case (Substitute(from, _), Substitute(_, to)) => [Substitute(from, to)]
    case (_, _) => [a]
  }

  lemma JoinedEdits(a: Edit, b: Edit)
    requires !a.Delete? && !b.Insert? && Produced(a) == Consumed(b)
    ensures Source(Joined(a, b)) == Consumed(a) && Target(Joined(a, b)) == Produced(b)
    ensures Cost(Joined(a, b)) <= Cost([a]) + Cost([b])
  {
    OneEdit(a);
    OneEdit(b);
    if Joined(a, b) != [] {
      OneEdit(Joined(a, b)[0]);
      assert Joined(a, b) == [Joined(a, b)[0]];
    }
  }

  lemma ScriptCons(first: seq<Edit>, script: seq<Edit>, source: string, target: string)
    requires Edits(script, source, target)
    ensures Edits(first + script, Source(first) + source, Target(first) + target)
    ensures Cost(first + script) == Cost(first) + Cost(script)
  {
    ScriptConcat(first, script);
  }

  /** Doing one script after another, character by character. */
  lemma {:induction false} Compose(s: seq<Edit>, t: seq<Edit>) returns (script: seq<Edit>)
    requires Target(s) == Source(t)
    ensures Edits(script, Source(s), Target(t)) && Cost(script) <= Cost(s) + Cost(t)
    decreases |s| + |t|, 1
  {
    hide Edits, Joined;
    if s == [] || (t != [] && t[0].Insert?) {
      script := ComposeInserts(s, t);
    } else if s[0].Delete? {
      script := Compose(s[1..], t);
      OneEdit(s[0]);
      ScriptCons([s[0]], script, Source(s[1..]), Target(t));
      assert Target([s[0]]) + Target(t) == Target(t);
      script := [s[0]] + script;
    } else {
      assert t != [];
      assert Target(s)[1..] == Target(s[1..]) && Source(t)[1..] == Source(t[1..]);
      script := Compose(s[1..], t[1..]);
      OneEdit(s[0]);
      OneEdit(t[0]);
      JoinedEdits(s[0], t[0]);
      ScriptCons(Joined(s[0], t[0]), script, Source(s[1..]), Target(t[1..]));
      script := Joined(s[0], t[0]) + script;
    }
  }

  /** Insertions of the second script do not wait for the first. */
  lemma {:induction false} ComposeInserts(s: seq<Edit>, t: seq<Edit>) returns (script: seq<Edit>)
    requires Target(s) == Source(t) && (s == [] || (t != [] && t[0].Insert?))
    ensures Edits(script, Source(s), Target(t)) && Cost(script) <= Cost(s) + Cost(t)
    decreases |s| + |t|, 0
  {
    if s == [] {
      script := t;
    } else {
      OneEdit(t[0]);
      assert Source(t) == Source(t[1..]);
      script := Compose(s, t[1..]);
      ScriptCons([t[0]], script, Source(s), Target(t[1..]));
      assert Source([t[0]]) + Source(s) == Source(s);
      script := [t[0]] + script;
    }
  }

  lemma {:induction false} DistanceTriangle(a: string, b: string, c: string)
    ensures Distance(a, c) <= Distance(a, b) + Distance(b, c)
  {
    var s := CheapestScript(a, b);
    var t := CheapestScript(b, c);
    var script := Compose(s, t);
    NoCheaperScript(script);
  }

  // The two-row table.

  /** A row of the table: the distances of a fixed left prefix to the right prefixes. */
  ghost predicate Row(row: seq<nat>, left: string, right: string) {
    |row| <= |right| + 1 && forall j | 0 <= j < |row| :: row[j] == Distance(left, right[..j])
  }

  method NextRow(previous: seq<nat>, ghost left: string, c: char, right: string, index: nat) returns (current: seq<nat>)
    requires |previous| == |right| + 1 && Row(previous, left, right) && index == |left|
    ensures |current| == |right| + 1 && Row(current, left + [c], right)
  {
    assert right[..0] == [];
    current := [index + 1];
    for j := 0 to |right|
      invariant |current| == j + 1 && Row(current, left + [c], right)
    {
      assert (left + [c])[..|left|] == left && right[..j + 1][..j] == right[..j];
      current := current + [Min(Min(current[j] + 1, previous[j + 1] + 1),
                                previous[j] + (if c != right[j] then 1 else 0))];
    }
  }

  method Levenshtein(left: string, right: string) returns (distance: nat)
    ensures distance == Distance(left, right)
  {
    var previous: seq<nat> := seq(|right| + 1, j => j);
    assert left[..0] == [];
    for i := 0 to |left|
      invariant |previous| == |right| + 1 && Row(previous, left[..i], right)
    {
      assert left[..i + 1] == left[..i] + [left[i]];
      previous := NextRow(previous, left[..i], left[i], right, i);
    }
    assert left[..|left|] == left && right[..|right|] == right;
    return previous[|right|];
  }

  // Normalisation and lookups, for ASCII names.

  predicate IsAlphanumeric(c: char) { IsDigit(c) || IsUpperLetter(c) || IsLowerLetter(c) }

  /** The lower-cased character, an apostrophe, a space, or nothing. */
  function NormalChar(c: char): string {
    var lower := LowerChar(c);
    if lower == '`' then "'"
    else if IsAlphanumeric(lower) || lower == '\'' then [lower]
    else if IsSpace(lower) || lower == '-' then " "
    else ""
  }

  function NormalChars(s: string): string {
    if s == [] then [] else NormalChar(s[0]) + NormalChars(s[1..])
  }

  /** `split_whitespace` joined by single spaces. */
  function JoinWords(s: string): string {
    if s == [] then []
    else if s[0] == ' ' then JoinWords(s[1..])
    else
      var rest := JoinWords(s[1..]);
      if |s| > 1 && s[1] == ' ' && rest != [] then [s[0], ' '] + rest else [s[0]] + rest
  }

  function NormalizeOcrName(name: string): string {
    JoinWords(NormalChars(name))
  }

  predicate IsNormal(s: string) {
    forall c | c in s :: NormalChar(c) == [c]
  }

  lemma {:induction false} NormalCharsAreNormal(s: string)
    ensures IsNormal(NormalChars(s))
  {
    if s != [] {
      NormalCharsAreNormal(s[1..]);
      assert IsNormal(NormalChar(s[0]));
    }
  }

  lemma {:induction false} NormalStays(s: string)
    requires IsNormal(s)
    ensures NormalChars(s) == s
  {
    if s != [] {
      NormalStays(s[1..]);
      assert s[0] in s;
    }
  }

  /** No space at either end and no two together. */
  predicate SingleSpaced(s: string) {
    && (s != [] ==> s[0] != ' ' && s[|s| - 1] != ' ')
    && forall i | 0 <= i < |s| - 1 :: s[i] == ' ' ==> s[i + 1] != ' '
  }

  lemma {:induction false} WordsJoined(s: string)
    requires IsNormal(s)
    ensures IsNormal(JoinWords(s)) && SingleSpaced(JoinWords(s))
  {
    if s != [] {
      assert IsNormal(s[1..]);
      WordsJoined(s[1..]);
      assert s[0] in s && NormalChar(' ') == " ";
    }
  }

  lemma {:induction false} JoinedStays(s: string)
    requires SingleSpaced(s)
    ensures JoinWords(s) == s
  {
    if s != [] {
      if |s| > 1 && s[1] == ' ' {
        assert |s| > 2 && SingleSpaced(s[2..]);
        JoinedStays(s[2..]);
        assert s[1..][1..] == s[2..];
        assert s == [s[0], ' '] + s[2..];
      } else {
        assert SingleSpaced(s[1..]);
        JoinedStays(s[1..]);
      }
    }
  }

  /** A normalised name is its own normal form. */
  lemma NormalizeIdempotent(name: string)
    ensures NormalizeOcrName(NormalizeOcrName(name)) == NormalizeOcrName(name)
    ensures SingleSpaced(NormalizeOcrName(name))
  {
    NormalCharsAreNormal(name);
    WordsJoined(NormalChars(name));
    NormalStays(NormalizeOcrName(name));
    JoinedStays(NormalizeOcrName(name));
  }

  datatype Card = Card(name: string, collectible: Option<bool>)

  type Cards = map<string, Card>

  predicate Collectible(card: Card) {
    card.collectible == Some(true)
  }

  function FindByOcrName(cards: Cards, name: string): set<string> {
    var normal := NormalizeOcrName(name);
    if normal == [] then {}
    else set id | id in cards && Collectible(cards[id]) && NormalizeOcrName(cards[id].name) == normal
  }

  const MINIMUM_FUZZY_LENGTH: nat := 6

  function FindByOcrNameNear(cards: Cards, name: string, maximum: nat): map<string, nat> {
    var normal := NormalizeOcrName(name);
    if |normal| < MINIMUM_FUZZY_LENGTH then map[]
    else
      map id | id in cards && Collectible(cards[id])
               && Distance(normal, NormalizeOcrName(cards[id].name)) <= maximum
      :: Distance(normal, NormalizeOcrName(cards[id].name))
  }

  /** Names long enough for the fuzzy lookup: an exact match is a match at distance zero, at every radius. */
  lemma ExactIsDistanceZero(cards: Cards, name: string, maximum: nat)
    requires |NormalizeOcrName(name)| >= MINIMUM_FUZZY_LENGTH
    ensures forall id :: id in FindByOcrName(cards, name) <==>
              id in FindByOcrNameNear(cards, name, maximum) && FindByOcrNameNear(cards, name, maximum)[id] == 0
  {
    hide Distance, NormalizeOcrName;
    forall id | id in cards
      ensures Distance(NormalizeOcrName(name), NormalizeOcrName(cards[id].name)) == 0 <==>
                NormalizeOcrName(name) == NormalizeOcrName(cards[id].name)
    {
      DistanceZeroIff(NormalizeOcrName(name), NormalizeOcrName(cards[id].name));
    }
  }

  /** Two cards near the same reading are near each other. */
  lemma NearCardsAreClose(cards: Cards, name: string, maximum: nat, a: string, b: string)
    requires a in FindByOcrNameNear(cards, name, maximum) && b in FindByOcrNameNear(cards, name, maximum)
    ensures Distance(NormalizeOcrName(cards[a].name), NormalizeOcrName(cards[b].name)) <= 2 * maximum
  {
    hide Distance, NormalizeOcrName;
    var normal, x, y := NormalizeOcrName(name), NormalizeOcrName(cards[a].name), NormalizeOcrName(cards[b].name);
    DistanceSymmetric(normal, x);
    DistanceTriangle(x, normal, y);
  }

  /** A name of at least six normal characters is near a collectible card's name if and only if so many single-character
      edits lead from one normal name to the other; what is reported is the least number of them. */
  lemma NearIff(cards: Cards, name: string, maximum: nat, id: string)
    ensures var near := FindByOcrNameNear(cards, name, maximum);
      && (id in near <==>
            && id in cards && cards[id].collectible == Some(true) && |NormalizeOcrName(name)| >= 6
            && exists script: seq<Edit> ::
                 Edits(script, NormalizeOcrName(name), NormalizeOcrName(cards[id].name)) && Cost(script) <= maximum)
      && (id in near ==>
            && (exists script: seq<Edit> ::
                  Edits(script, NormalizeOcrName(name), NormalizeOcrName(cards[id].name)) && Cost(script) == near[id])
            && forall script: seq<Edit> | Edits(script, NormalizeOcrName(name), NormalizeOcrName(cards[id].name)) ::
                 near[id] <= Cost(script))
  {
    hide NormalizeOcrName, Distance, Cost, Source, Target;
    if id in cards {
      var normal, other := NormalizeOcrName(name), NormalizeOcrName(cards[id].name);
      var script := CheapestScript(normal, other);
      forall script: seq<Edit> | Edits(script, normal, other) ensures Distance(normal, other) <= Cost(script) {
        NoCheaperScript(script);
      }
    }
  }

  /** The letters, digits and apostrophes of a name, in lower case; a grave accent counts as an apostrophe. */
  function Essence(name: string): string {
    if name == [] then []
    else
      var c := name[0];
      (if IsAlphanumeric(c) then [LowerChar(c)] else if c == '`' || c == '\'' then "'" else []) + Essence(name[1..])
  }

  lemma EssenceCons(c: char, rest: string)
    ensures Essence([c] + rest) == Essence([c]) + Essence(rest)
  {
    assert ([c] + rest)[1..] == rest && [c][1..] == [];
  }

  lemma {:induction false} NormalEssence(name: string)
    ensures Essence(NormalChars(name)) == Essence(name)
  {
    if name != [] {
      NormalEssence(name[1..]);
      var normal := NormalChar(name[0]);
      assert name == [name[0]] + name[1..];
      EssenceCons(name[0], name[1..]);
      assert |normal| <= 1;
      if normal == [] {
        assert normal + NormalChars(name[1..]) == NormalChars(name[1..]);
      } else {
        EssenceCons(normal[0], NormalChars(name[1..]));
      }
      CharEssence(name[0]);
    }
  }

  lemma CharEssence(c: char)
    ensures Essence(NormalChar(c)) == Essence([c])
  {
    assert [c][1..] == [] && Essence([]) == [];
  }

  lemma {:induction false} JoinedEssence(s: string)
    ensures Essence(JoinWords(s)) == Essence(s)
  {
    if s != [] {
      var rest := JoinWords(s[1..]);
      JoinedEssence(s[1..]);
      assert s == [s[0]] + s[1..];
      EssenceCons(s[0], s[1..]);
      EssenceCons(s[0], rest);
      EssenceCons(' ', rest);
      EssenceCons(s[0], " " + rest);
      assert [s[0], ' '] + rest == [s[0]] + (" " + rest);
      assert Essence([' ']) == [] && Essence([]) == [];
    }
  }

  /** The normal form of a name keeps its letters, digits and apostrophes in order and nothing else but single spaces. */
  lemma NormalizeKeepsEssence(name: string)
    ensures Essence(NormalizeOcrName(name)) == Essence(name)
    ensures forall c | c in NormalizeOcrName(name) :: c == ' ' || c == '\'' || IsDigit(c) || IsLowerLetter(c)
  {
    NormalEssence(name);
    JoinedEssence(NormalChars(name));
    NormalCharsAreNormal(name);
    WordsJoined(NormalChars(name));
  }

  lemma {:induction false} NormalCharsConcat(a: string, b: string)
    ensures NormalChars(a + b) == NormalChars(a) + NormalChars(b)
  {
    hide NormalChar;
    if a == [] {
      assert a + b == b;
    } else {
      assert (a + b)[0] == a[0] && (a + b)[1..] == a[1..] + b;
      NormalCharsConcat(a[1..], b);
    }
  }

  lemma {:induction false} LeadingSpaces(a: string, b: string)
    requires JoinWords(a) == []
    ensures JoinWords(a + b) == JoinWords(b)
  {
    if a == [] {
      assert a + b == b;
    } else {
      assert (a + b)[0] == a[0] && (a + b)[1..] == a[1..] + b;
      LeadingSpaces(a[1..], b);
    }
  }

  lemma {:induction false} WordsSplit(a: string, b: string)
    requires JoinWords(a) != [] && JoinWords(b) != []
    ensures JoinWords(a + ([' '] + b)) == JoinWords(a) + ([' '] + JoinWords(b))
  {
    var all, tail := a + ([' '] + b), [' '] + b;
    assert all[0] == a[0] && all[1..] == a[1..] + tail;
    assert tail[1..] == b && JoinWords(tail) == JoinWords(b);
    if a[0] == ' ' {
      WordsSplit(a[1..], b);
    } else if JoinWords(a[1..]) == [] {
      LeadingSpaces(a[1..], tail);
      assert all[1] == ' ';
    } else {
      WordsSplit(a[1..], b);
      assert all[1] == a[1];
    }
  }

  /** A space or a dash separates words, and any number of them comes down to a single space. */
  lemma SeparatorSplits(a: string, separator: char, b: string)
    requires IsSpace(separator) || separator == '-'
    requires NormalizeOcrName(a) != [] && NormalizeOcrName(b) != []
    ensures NormalizeOcrName(a + ([separator] + b)) == NormalizeOcrName(a) + (" " + NormalizeOcrName(b))
  {
    hide NormalChars, JoinWords;
    NormalCharsConcat(a, [separator] + b);
    NormalCharsConcat([separator], b);
    OneSeparator(separator);
    WordsSplit(NormalChars(a), NormalChars(b));
  }

  lemma OneSeparator(separator: char)
    requires IsSpace(separator) || separator == '-'
    ensures NormalChars([separator]) == " "
  {
    assert [separator][1..] == [];
  }
}
