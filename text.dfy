/** The string built-ins the handlers rely on: `indexOf`, `split` with a
    non-empty separator, `join`, `startsWith`, `toLowerCase` (on ASCII
    letters) and the decimal rendering of a number inside a template string. */
module Text {
  import opened Remote

  /** `sep` occurs in `s` at index `i`. */
  predicate OccursAt(s: string, sep: string, i: nat) {
    i + |sep| <= |s| && s[i..i + |sep|] == sep
  }

  predicate Contains(s: string, sep: string) {
    exists i: nat :: i <= |s| && OccursAt(s, sep, i)
  }

  predicate StartsWith(s: string, prefix: string) {
    |prefix| <= |s| && s[..|prefix|] == prefix
  }

  predicate EndsWith(s: string, suffix: string) {
    |suffix| <= |s| && s[|s| - |suffix|..] == suffix
  }

  function Last<T>(xs: seq<T>): T
    requires |xs| > 0
  {
    xs[|xs| - 1]
  }

  /** `s.indexOf(sep, from)`: the first index at or after `from` where `sep` occurs. */
  function IndexOf(s: string, sep: string, from: nat): (r: Option<nat>)
    ensures r.Some? ==> from <= r.value && OccursAt(s, sep, r.value)
    ensures forall j: nat :: from <= j && (r.None? || j < r.value) ==> !OccursAt(s, sep, j)
    decreases |s| - from
  {
    if from + |sep| > |s| then None
    else if OccursAt(s, sep, from) then Some(from)
    else IndexOf(s, sep, from + 1)
  }

  /** An occurrence inside a prefix of `s` is an occurrence in `s`. */
  lemma OccursInPrefix(s: string, sep: string, i: nat, j: nat)
    requires i <= |s| && OccursAt(s[..i], sep, j)
    ensures OccursAt(s, sep, j) && j + |sep| <= i
  {
    assert s[..i][j..j + |sep|] == s[j..j + |sep|];
  }

  /** `parts.join(sep)`. */
  function Join(parts: seq<string>, sep: string): string {
    if |parts| == 0 then ""
    else if |parts| == 1 then parts[0]
    else parts[0] + sep + Join(parts[1..], sep)
  }

  /** `s.split(sep)` for a non-empty separator: the pieces between the
      successive non-overlapping occurrences of `sep`, scanned left to right. */
  function Split(s: string, sep: string): (parts: seq<string>)
    requires sep != []
    ensures |parts| >= 1
    decreases |s|
  {
    match IndexOf(s, sep, 0)
    case None => [s]
    case Some(i) => [s[..i]] + Split(s[i + |sep|..], sep)
  }

  /** There is more than one piece exactly when the separator occurs;
      otherwise the only piece is the whole string. */
  lemma SplitCount(s: string, sep: string)
    requires sep != []
    ensures |Split(s, sep)| == 1 <==> !Contains(s, sep)
    ensures |Split(s, sep)| == 1 ==> Split(s, sep) == [s]
  {
    match IndexOf(s, sep, 0)
    case None =>
    case Some(i) =>
  }

  /** No piece contains the separator. */
  lemma {:induction false} SplitPiecesFree(s: string, sep: string)
    requires sep != []
    ensures forall k :: 0 <= k < |Split(s, sep)| ==> !Contains(Split(s, sep)[k], sep)
    decreases |s|
  {
    match IndexOf(s, sep, 0)
    case None =>
    case Some(i) =>
      var head, rest := s[..i], s[i + |sep|..];
      SplitPiecesFree(rest, sep);
      forall j: nat | j <= |head| && OccursAt(head, sep, j) ensures false {
        OccursInPrefix(s, sep, i, j);
      }
      assert Split(s, sep) == [head] + Split(rest, sep);
  }

  /** The first piece is a prefix of the string, ended by an occurrence of
      the separator when more pieces follow. */
  lemma SplitFirst(s: string, sep: string)
    requires sep != []
    ensures StartsWith(s, Split(s, sep)[0])
    ensures |Split(s, sep)| > 1 ==> OccursAt(s, sep, |Split(s, sep)[0]|)
  {
    match IndexOf(s, sep, 0)
    case None =>
    case Some(i) =>
  }

  /** The last piece is a suffix of the string. */
  lemma {:induction false} SplitLastSuffix(s: string, sep: string)
    requires sep != []
    ensures EndsWith(s, Last(Split(s, sep)))
    decreases |s|
  {
    match IndexOf(s, sep, 0)
    case None =>
    case Some(i) =>
      var rest := s[i + |sep|..];
      var tail := Split(rest, sep);
      SplitLastSuffix(rest, sep);
      assert Last(Split(s, sep)) == Last(tail);
      var n := |Last(tail)|;
      assert s[|s| - n..] == rest[|rest| - n..];
  }

  /** Joining the pieces with the separator gives back the string. */
  lemma {:induction false} JoinSplit(s: string, sep: string)
    requires sep != []
    ensures Join(Split(s, sep), sep) == s
    decreases |s|
  {
    match IndexOf(s, sep, 0)
    case None =>
    case Some(i) =>
      var rest := s[i + |sep|..];
      var tail := Split(rest, sep);
      JoinSplit(rest, sep);
      assert Split(s, sep) == [s[..i]] + tail;
      assert ([s[..i]] + tail)[1..] == tail;
      assert s == s[..i] + sep + rest;
  }

  /** Joining several pieces ends with the separator and the last piece. */
  lemma {:induction false} JoinLast(parts: seq<string>, sep: string)
    requires |parts| > 1
    ensures Join(parts, sep) == Join(parts[..|parts| - 1], sep) + sep + Last(parts)
    decreases |parts|
  {
    var init := parts[..|parts| - 1];
    if |parts| > 2 {
      JoinLast(parts[1..], sep);
      assert parts[1..][..|parts| - 2] == init[1..];
      assert Last(parts[1..]) == Last(parts);
      assert init[0] == parts[0];
    } else {
      assert init == [parts[0]];
    }
  }

  /** When more pieces precede it, the last piece is preceded by an
      occurrence of the separator. */
  lemma SplitLastPreceded(s: string, sep: string)
    requires sep != [] && |Split(s, sep)| > 1
    ensures |Last(Split(s, sep))| + |sep| <= |s|
    ensures OccursAt(s, sep, |s| - |Last(Split(s, sep))| - |sep|)
  {
    var parts := Split(s, sep);
    JoinSplit(s, sep);
    JoinLast(parts, sep);
    var init := Join(parts[..|parts| - 1], sep);
    assert s == init + sep + Last(parts);
    assert s[|init|..|init| + |sep|] == sep;
  }

  /** Appending text after the first occurrence does not move it. */
  lemma FirstOccurrenceKept(base: string, sep: string, path: string)
    requires IndexOf(base + sep, sep, 0) == Some(|base|)
    ensures IndexOf(base + sep + path, sep, 0) == Some(|base|)
  {
    var head := base + sep;
    var url := head + path;
    forall j: nat | j < |base| ensures !OccursAt(url, sep, j) {
      assert !OccursAt(head, sep, j);
      assert url[j..j + |sep|] == head[j..j + |sep|];
    }
    assert url[|base|..|base| + |sep|] == head[|base|..];
    IndexOfFirst(url, sep, 0, |base|);
  }

  /** An occurrence with none before it is the one `indexOf` finds. */
  lemma {:induction false} IndexOfFirst(s: string, sep: string, from: nat, i: nat)
    requires from <= i && OccursAt(s, sep, i)
    requires forall j: nat :: from <= j < i ==> !OccursAt(s, sep, j)
    ensures IndexOf(s, sep, from) == Some(i)
    decreases i - from
  {
    if from < i {
      IndexOfFirst(s, sep, from + 1, i);
    }
  }

  /** Splitting `base + sep + path`, where `sep` first occurs right after
      `base` and not at all in `path`, gives the two of them. */
  lemma SplitAtFirst(base: string, sep: string, path: string)
    requires sep != []
    requires IndexOf(base + sep, sep, 0) == Some(|base|)
    requires !Contains(path, sep)
    ensures Split(base + sep + path, sep) == [base, path]
  {
    var url := base + sep + path;
    FirstOccurrenceKept(base, sep, path);
    assert url[|base| + |sep|..] == path;
    assert url[..|base|] == base;
    SplitCount(path, sep);
  }

  /** A one-character separator occurs exactly where that character does. */
  lemma ContainsChar(s: string, c: char)
    ensures Contains(s, [c]) <==> c in s
  {
    if c in s {
      var i :| 0 <= i < |s| && s[i] == c;
      assert OccursAt(s, [c], i);
    }
    if Contains(s, [c]) {
      var i: nat :| i <= |s| && OccursAt(s, [c], i);
      assert s[i] == s[i..i + 1][0];
    }
  }

  /** `toLowerCase` on one character; only ASCII letters are mapped here. */
  function LowerChar(c: char): char {
    if 'A' <= c <= 'Z' then (c as int + 32) as char else c
  }

  function UpperChar(c: char): char {
    if 'a' <= c <= 'z' then (c as int - 32) as char else c
  }

  function ToLower(s: string): (r: string)
    ensures |r| == |s|
    ensures forall i :: 0 <= i < |s| ==> r[i] == LowerChar(s[i])
  {
    if s == [] then [] else [LowerChar(s[0])] + ToLower(s[1..])
  }

  function ToUpper(s: string): (r: string)
    ensures |r| == |s|
    ensures forall i :: 0 <= i < |s| ==> r[i] == UpperChar(s[i])
  {
    if s == [] then [] else [UpperChar(s[0])] + ToUpper(s[1..])
  }

  /** Lower-casing ignores how a string was cased: upper-casing first changes nothing. */
  lemma LowerIgnoresCase(s: string)
    ensures ToLower(ToUpper(s)) == ToLower(s)
    ensures ToLower(ToLower(s)) == ToLower(s)
  {
    assert forall i :: 0 <= i < |s| ==> ToLower(ToUpper(s))[i] == ToLower(s)[i];
    assert forall i :: 0 <= i < |s| ==> ToLower(ToLower(s))[i] == ToLower(s)[i];
  }

  function DigitChar(d: nat): (c: char)
    requires d < 10
    ensures '0' <= c <= '9' && c as int - '0' as int == d
  {
    (('0' as int) + d) as char
  }

  /** A number rendered in a template string: its decimal digits, no sign, no leading zero. */
  function NatToString(n: nat): (r: string)
    ensures |r| >= 1
    ensures forall i :: 0 <= i < |r| ==> '0' <= r[i] <= '9'
    ensures |r| > 1 ==> r[0] != '0'
    decreases n
  {
    if n < 10 then [DigitChar(n)] else NatToString(n / 10) + [DigitChar(n % 10)]
  }

  /** The number a string of decimal digits denotes. */
  function DecimalValue(s: string): nat
    requires forall i :: 0 <= i < |s| ==> '0' <= s[i] <= '9'
  {
    if s == [] then 0
    else DecimalValue(s[..|s| - 1]) * 10 + (s[|s| - 1] as int - '0' as int)
  }

  /** Reading the rendered digits back gives the number. */
  lemma {:induction false} DecimalRoundTrip(n: nat)
    ensures DecimalValue(NatToString(n)) == n
    decreases n
  {
    if n >= 10 {
      DecimalRoundTrip(n / 10);
      var r := NatToString(n);
      assert r[..|r| - 1] == NatToString(n / 10);
    }
  }
}
