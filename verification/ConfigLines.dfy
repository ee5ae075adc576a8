/** Assignment lines of the logging configuration: how they are recognised, rewritten and read back. */
module ConfigLines {
  import opened Prelude
  import opened Text

  // Spaces.

  predicate AllSpaces(s: string) {
    forall c | c in s :: IsSpace(c)
  }

  lemma {:induction false} TrimStartSplits(s: string)
    ensures var t := TrimStart(s);
      && |t| <= |s| && s[|s| - |t|..] == t && AllSpaces(s[..|s| - |t|]) && (t != [] ==> !IsSpace(t[0]))
  {
    if s != [] && IsSpace(s[0]) {
      TrimStartSplits(s[1..]);
      var t := TrimStart(s[1..]);
      assert s[..|s| - |t|] == [s[0]] + s[1..][..|s| - 1 - |t|];
    }
  }

  lemma {:induction false} TrimEndSplits(s: string)
    ensures var t := TrimEnd(s);
      t <= s && AllSpaces(s[|t|..]) && (t != [] ==> !IsSpace(t[|t| - 1]))
  {
    if s != [] && IsSpace(s[|s| - 1]) {
      var init := s[..|s| - 1];
      TrimEndSplits(init);
      assert s[|TrimEnd(init)|..] == init[|TrimEnd(init)|..] + [s[|s| - 1]];
    }
  }

  lemma {:induction false} TrimStartSkips(spaces: string, s: string)
    requires AllSpaces(spaces)
    ensures TrimStart(spaces + s) == TrimStart(s)
  {
    if spaces == [] {
      assert spaces + s == s;
    } else {
      assert (spaces + s)[0] == spaces[0] && (spaces + s)[1..] == spaces[1..] + s;
      TrimStartSkips(spaces[1..], s);
    }
  }

  lemma {:induction false} TrimEndSkips(s: string, spaces: string)
    requires AllSpaces(spaces)
    ensures TrimEnd(s + spaces) == TrimEnd(s)
  {
    if spaces == [] {
      assert s + spaces == s;
    } else {
      var init := spaces[..|spaces| - 1];
      assert (s + spaces)[..|s + spaces| - 1] == s + init;
      assert (s + spaces)[|s + spaces| - 1] == spaces[|spaces| - 1] && spaces[|spaces| - 1] in spaces;
      TrimEndSkips(s, init);
    }
  }

  /** A word is what trimming leaves of it between any spaces. */
  lemma TrimFinds(before: string, word: string, after: string)
    requires AllSpaces(before) && AllSpaces(after)
    requires word != [] && !IsSpace(word[0]) && !IsSpace(word[|word| - 1])
    ensures Trim(before + word + after) == word
  {
    TrimStartSkips(before, word + after);
    assert before + word + after == before + (word + after);
    TrimEndSkips(word, after);
  }

  // Assignments.

  /** The first position of a character, the length if there is none. */
  function IndexOf(s: string, c: char): (r: nat)
    ensures r <= |s| && c !in s[..r] && (r < |s| ==> s[r] == c)
  {
    if s == [] || s[0] == c then 0
    else
      var r := 1 + IndexOf(s[1..], c);
      assert s[..r] == [s[0]] + s[1..][..r - 1];
      r
  }

  lemma {:induction false} IndexOfUnique(s: string, c: char, i: nat)
    requires i <= |s| && c !in s[..i] && (i < |s| ==> s[i] == c)
    ensures IndexOf(s, c) == i
  {
    if i > 0 {
      assert s[..i][0] == s[0];
      assert s[1..][..i - 1] == s[..i][1..];
      IndexOfUnique(s[1..], c, i - 1);
    }
  }

  function KeyOf(line: string): Option<string> {
    var i := IndexOf(line, '=');
    if i == |line| then None else Some(Trim(line[..i]))
  }

  predicate Assigns(line: string, key: string) {
    KeyOf(line).Some? && SameIgnoringCase(KeyOf(line).value, key)
  }

  function CommentStart(value: string): (r: nat)
    ensures r <= |value| && forall i | 0 <= i < r :: value[i] != ';' && value[i] != '#'
    ensures r < |value| ==> value[r] == ';' || value[r] == '#'
  {
    if value == [] || value[0] == ';' || value[0] == '#' then 0 else 1 + CommentStart(value[1..])
  }

  lemma {:induction false} CommentStartUnique(value: string, r: nat)
    requires r <= |value| && forall i | 0 <= i < r :: value[i] != ';' && value[i] != '#'
    requires r < |value| ==> value[r] == ';' || value[r] == '#'
    ensures CommentStart(value) == r
  {
    if r > 0 {
      CommentStartUnique(value[1..], r - 1);
    }
  }

  /** The trailing comment of a value, with the spaces before it. */
  function CommentOf(value: string): string {
    var i := CommentStart(value);
    if i == |value| then [] else value[..i][|TrimEnd(value[..i])|..] + value[i..]
  }

  function IndentOf(line: string): string {
    TrimStartSplits(line);
    line[..|line| - |TrimStart(line)|]
  }

  function ValuePart(line: string): string
    requires KeyOf(line).Some?
  {
    line[IndexOf(line, '=') + 1..]
  }

  /** The line with its value replaced and its indentation and comment kept. */
  function Replacement(line: string, key: string, value: string): string
    requires KeyOf(line).Some?
  {
    IndentOf(line) + key + "=" + value + CommentOf(ValuePart(line))
  }

  /** What a key or value of a required setting looks like. */
  predicate PlainWord(word: string) {
    word != [] && forall c | c in word :: IsDigit(c) || IsUpperLetter(c) || IsLowerLetter(c)
  }

  /** A comment as it is kept: nothing, or spaces and a comment sign. */
  predicate IsComment(comment: string) {
    comment == [] ||
    exists i | 0 <= i < |comment| :: AllSpaces(comment[..i]) && (comment[i] == ';' || comment[i] == '#')
  }

  lemma CommentOfShape(value: string)
    ensures IsComment(CommentOf(value))
  {
    var i := CommentStart(value);
    if i < |value| {
      var prefix := value[..i];
      TrimEndSplits(prefix);
      var spaces := prefix[|TrimEnd(prefix)|..];
      var comment := spaces + value[i..];
      assert comment[..|spaces|] == spaces && comment[|spaces|] == value[i];
    }
  }

  /** A setting line: indentation, key, value and comment. */
  function SettingLine(indent: string, key: string, value: string, comment: string): string {
    indent + key + "=" + value + comment
  }

  ghost predicate IsSetting(line: string, key: string, value: string) {
    exists indent, comment :: AllSpaces(indent) && IsComment(comment) && line == SettingLine(indent, key, value, comment)
  }

  lemma ReplacementIsSetting(line: string, key: string, value: string)
    requires KeyOf(line).Some?
    ensures IsSetting(Replacement(line, key, value), key, value)
  {
    TrimStartSplits(line);
    CommentOfShape(ValuePart(line));
    assert Replacement(line, key, value) == SettingLine(IndentOf(line), key, value, CommentOf(ValuePart(line)));
  }

  lemma PlainSetting(key: string, value: string)
    ensures IsSetting(key + "=" + value, key, value)
  {
    assert key + "=" + value == SettingLine("", key, value, "");
  }

  /** The comment of a setting line is found again. */
  lemma CommentFound(value: string, comment: string)
    requires PlainWord(value) && IsComment(comment)
    ensures CommentOf(value + comment) == comment
    ensures Trim((value + comment)[..CommentStart(value + comment)]) == value
  {
    var all := value + comment;
    forall i | 0 <= i < |value| ensures all[i] != ';' && all[i] != '#' {
      assert all[i] in value;
    }
    if comment == [] {
      CommentStartUnique(all, |all|);
      assert all == value && "" + value + "" == value;
      WordTrims("", value, "");
      assert all[..|all|] == all;
    } else {
      CommentFoundSigned(value, comment);
    }
  }

  predicate CommentSign(c: char) { c == ';' || c == '#' }

  lemma SignFound(value: string, spaces: string, tail: string)
    requires PlainWord(value) && AllSpaces(spaces) && tail != [] && CommentSign(tail[0])
    ensures CommentStart(value + spaces + tail) == |value| + |spaces|
  {
    var all := value + spaces + tail;
    forall k | 0 <= k < |value| + |spaces| ensures all[k] != ';' && all[k] != '#' {
      assert all[k] == (value + spaces)[k] && (value + spaces)[k] in value + spaces;
    }
    CommentStartUnique(all, |value| + |spaces|);
  }

  lemma CommentParts(value: string, spaces: string, tail: string)
    requires PlainWord(value) && AllSpaces(spaces) && tail != [] && CommentSign(tail[0])
    ensures CommentOf(value + spaces + tail) == spaces + tail
    ensures Trim((value + spaces + tail)[..CommentStart(value + spaces + tail)]) == value
  {
    hide PlainWord, CommentStart, Trim, TrimEnd;
    var all := value + spaces + tail;
    SignFound(value, spaces, tail);
    assert all[..|value| + |spaces|] == value + spaces && all[|value| + |spaces|..] == tail;
    WordTrims("", value, spaces);
    assert "" + value + spaces == value + spaces;
    assert (value + spaces)[|value|..] == spaces;
  }

  lemma CommentFoundSigned(value: string, comment: string)
    requires PlainWord(value) && IsComment(comment) && comment != []
    ensures CommentOf(value + comment) == comment
    ensures Trim((value + comment)[..CommentStart(value + comment)]) == value
  {
    hide PlainWord, CommentStart, Trim, CommentOf;
    var i :| 0 <= i < |comment| && AllSpaces(comment[..i]) && (comment[i] == ';' || comment[i] == '#');
    assert comment == comment[..i] + comment[i..];
    assert value + comment == value + comment[..i] + comment[i..];
    CommentParts(value, comment[..i], comment[i..]);
  }

  lemma WordTrims(before: string, word: string, after: string)
    requires PlainWord(word) && AllSpaces(before) && AllSpaces(after)
    ensures Trim(before + word + after) == word && TrimEnd(word + after) == word
  {
    assert word[0] in word && word[|word| - 1] in word;
    TrimFinds(before, word, after);
    TrimEndSkips(word, after);
  }

  /** What is found in a setting line. */
  lemma SettingParts(indent: string, key: string, value: string, comment: string)
    requires AllSpaces(indent) && PlainWord(key) && PlainWord(value) && IsComment(comment)
    ensures var line := SettingLine(indent, key, value, comment);
      && KeyOf(line) == Some(key) && ValuePart(line) == value + comment && IndentOf(line) == indent
  {
    var line := SettingLine(indent, key, value, comment);
    var i := |indent| + |key|;
    assert line[..i] == indent + key && line[i] == '=' && line[i + 1..] == value + comment;
    assert '=' !in indent + key;
    IndexOfUnique(line, '=', i);
    WordTrims(indent, key, "");
    assert indent + key + "" == indent + key;
    assert key[0] in key;
    var rest := key + "=" + value + comment;
    assert line == indent + rest;
    TrimStartSkips(indent, rest);
  }

  /** Rewriting a setting line changes nothing. */
  lemma ReplacementIdempotent(line: string, key: string, value: string)
    requires PlainWord(key) && PlainWord(value) && IsSetting(line, key, value)
    ensures KeyOf(line) == Some(key) && Replacement(line, key, value) == line
  {
    var indent, comment :| AllSpaces(indent) && IsComment(comment) && line == SettingLine(indent, key, value, comment);
    SettingParts(indent, key, value, comment);
    CommentFound(value, comment);
  }

  // Headers.

  predicate IsHeader(line: string) {
    var trimmed := Trim(line);
    |trimmed| >= 2 && trimmed[0] == '[' && trimmed[|trimmed| - 1] == ']'
  }

  function HeaderName(line: string): string
    requires IsHeader(line)
  {
    Trim(Trim(line)[1..|Trim(line)| - 1])
  }

  /** A setting line is no section header. */
  lemma SettingIsNoHeader(line: string, key: string, value: string)
    requires PlainWord(key) && IsSetting(line, key, value)
    ensures !IsHeader(line)
  {
    var indent, comment :| AllSpaces(indent) && IsComment(comment) && line == SettingLine(indent, key, value, comment);
    var rest := key + "=" + value + comment;
    assert line == indent + rest && rest[0] == key[0] && key[0] in key;
    TrimStartSkips(indent, rest);
    assert TrimStart(line) == rest;
  }

  /** A header is read by the word between its brackets, whatever spaces surround brackets and word. */
  lemma HeaderRead(before: string, left: string, word: string, right: string, after: string)
    requires AllSpaces(before) && AllSpaces(left) && AllSpaces(right) && AllSpaces(after) && PlainWord(word)
    ensures var line := before + ("[" + (left + word + right) + "]") + after;
      IsHeader(line) && HeaderName(line) == word
  {
    hide PlainWord, Trim;
    var header := "[" + (left + word + right) + "]";
    TrimFinds(before, header, after);
    assert header[1..|header| - 1] == left + word + right;
    WordTrims(left, word, right);
  }

  lemma ComponentHeader(component: string)
    requires PlainWord(component)
    ensures IsHeader("[" + component + "]") && HeaderName("[" + component + "]") == component
  {
    var line := "[" + component + "]";
    TrimFinds("", line, "");
    assert "" + line + "" == line;
    assert line[1..|line| - 1] == component;
    WordTrims("", component, "");
    assert "" + component + "" == component;
  }

  // The reader's view of a line.

  /** The reader splits the trimmed line and lower-cases the key. */
  function ReadKey(line: string): Option<string> {
    var key := KeyOf(Trim(line));
    if key.Some? then Some(Lower(key.value)) else None
  }

  function ReadValue(line: string): string
    requires ReadKey(line).Some?
  {
    var value := ValuePart(Trim(line));
    Trim(value[..CommentStart(value)])
  }

  lemma TrimSlices(line: string)
    ensures exists before, after :: AllSpaces(before) && AllSpaces(after) && line == before + Trim(line) + after
  {
    hide TrimStart, TrimEnd;
    TrimStartSplits(line);
    var t := TrimStart(line);
    TrimEndSplits(t);
    var before, after := line[..|line| - |t|], t[|Trim(line)|..];
    assert t == Trim(line) + after;
    assert line == before + Trim(line) + after;
  }

  lemma {:induction false} TrimSpaced(before: string, s: string)
    requires AllSpaces(before)
    ensures Trim(before + s) == Trim(s)
  {
    TrimStartSkips(before, s);
  }

  /** The patcher and the reader agree on which key a line assigns. */
  lemma ReadKeyAgrees(line: string, key: string)
    ensures Assigns(line, key) <==> ReadKey(line) == Some(Lower(key))
  {
    hide Trim, Lower;
    TrimSlices(line);
    var before, after :| AllSpaces(before) && AllSpaces(after) && line == before + Trim(line) + after;
    SpacedKey(before, Trim(line), after);
  }

  /** Spaces around a line do not change its key. */
  lemma SpacedKey(before: string, line: string, after: string)
    requires AllSpaces(before) && AllSpaces(after)
    ensures KeyOf(before + line + after) == KeyOf(line)
  {
    hide Trim;
    var all := before + line + after;
    var i := IndexOf(line, '=');
    assert '=' !in before && '=' !in after;
    if i < |line| {
      assert all[..|before| + i] == before + line[..i] && all[|before| + i] == line[i];
      IndexOfUnique(all, '=', |before| + i);
      TrimSpaced(before, line[..i]);
    } else {
      assert line[..i] == line && all[..|all|] == all;
      IndexOfUnique(all, '=', |all|);
    }
  }

  /** A setting line is read back with its value. */
  lemma SettingReads(line: string, key: string, value: string)
    requires PlainWord(key) && PlainWord(value) && IsSetting(line, key, value)
    ensures ReadKey(line) == Some(Lower(key)) && ReadValue(line) == value
  {
    ReplacementIdempotent(line, key, value);
    ReadKeyAgrees(line, key);
    var indent, comment :| AllSpaces(indent) && IsComment(comment) && line == SettingLine(indent, key, value, comment);
    SettingTrims(indent, key, value, comment);
    var comment' :| IsComment(comment') && Trim(line) == SettingLine("", key, value, comment');
    SettingParts("", key, value, comment');
    CommentFound(value, comment');
  }

  /** Trimming a setting line leaves a setting line. */
  lemma SettingTrims(indent: string, key: string, value: string, comment: string)
    requires AllSpaces(indent) && PlainWord(key) && PlainWord(value) && IsComment(comment)
    ensures exists comment' ::
      IsComment(comment') && Trim(SettingLine(indent, key, value, comment)) == SettingLine("", key, value, comment')
  {
    var rest := SettingLine("", key, value, comment);
    assert SettingLine(indent, key, value, comment) == indent + rest;
    assert rest[0] == key[0] && key[0] in key;
    TrimStartSkips(indent, rest);
    EndTrims(key, value, comment);
  }

  lemma EndTrims(key: string, value: string, comment: string)
    requires PlainWord(value) && IsComment(comment)
    ensures exists comment' ::
      IsComment(comment') && TrimEnd(SettingLine("", key, value, comment)) == SettingLine("", key, value, comment')
  {
    hide PlainWord, TrimEnd, AllSpaces;
    var rest := SettingLine("", key, value, "");
    PlainEnd(value);
    if comment == [] {
      var kept := TrimmedTail(rest, "");
      KeptIsEmpty(rest, kept);
      assert SettingLine("", key, value, comment) == rest;
    } else {
      var i :| 0 <= i < |comment| && AllSpaces(comment[..i]) && (comment[i] == ';' || comment[i] == '#');
      var head, tail := rest + comment[..i + 1], comment[i + 1..];
      assert SettingLine("", key, value, comment) == head + tail;
      var kept := TrimmedTail(head, tail);
      var comment' := comment[..i + 1] + kept;
      assert head + kept == SettingLine("", key, value, comment');
      assert comment'[..i] == comment[..i] && comment'[i] == comment[i];
    }
  }

  lemma PlainEnd(value: string)
    requires PlainWord(value)
    ensures value != [] && !IsSpace(value[|value| - 1])
  {
    assert value[|value| - 1] in value;
  }

  lemma KeptIsEmpty(rest: string, kept: string)
    requires TrimEnd(rest + "") == rest + kept
    ensures TrimEnd(rest) == rest
  {
    assert rest + "" == rest;
  }

  /** Trimming the end stops at a character that is no space. */
  lemma {:induction false} TrimmedTail(head: string, tail: string) returns (kept: string)
    requires head != [] && !IsSpace(head[|head| - 1])
    ensures TrimEnd(head + tail) == head + kept
  {
    if tail != [] && IsSpace(tail[|tail| - 1]) {
      assert (head + tail)[..|head + tail| - 1] == head + tail[..|tail| - 1];
      kept := TrimmedTail(head, tail[..|tail| - 1]);
    } else {
      kept := tail;
    }
  }
}
