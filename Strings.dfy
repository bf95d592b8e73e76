/** The small part of Go's `strings` package that the core relies on.
    A Dafny `string` stands for a Go byte string whose bytes are ASCII:
    case mapping, case folding and white space follow the ASCII rules. */
module Strings {

  /** Go's unicode.IsSpace restricted to ASCII: space, \t, \n, \v, \f, \r. */
  predicate IsSpace(c: char) {
    c == ' ' || c == '\t' || c == '\n' || c == '\r' || c as int == 11 || c as int == 12
  }

  function LowerChar(c: char): char {
    if 'A' <= c <= 'Z' then (c as int + 32) as char else c
  }

  /** strings.ToLower */
  function ToLower(s: string): (r: string)
    ensures |r| == |s|
    ensures forall i :: 0 <= i < |s| ==> r[i] == LowerChar(s[i])
  {
    if s == [] then [] else [LowerChar(s[0])] + ToLower(s[1..])
  }

  /** Lower-casing works character by character. */
  lemma {:induction false} ToLowerAppend(a: string, b: string)
    ensures ToLower(a + b) == ToLower(a) + ToLower(b)
  {
    if a == [] {
      assert a + b == b;
    } else {
      assert (a + b)[0] == a[0] && (a + b)[1..] == a[1..] + b;
      ToLowerAppend(a[1..], b);
    }
  }

  /** Lower-casing twice is lower-casing once. */
  lemma ToLowerIdempotent(s: string)
    ensures ToLower(ToLower(s)) == ToLower(s)
  {
  }

  /** strings.EqualFold: the same length, and each pair of characters
      equal once lower-cased. */
  predicate EqualFold(a: string, b: string) {
    |a| == |b| && forall i :: 0 <= i < |a| ==> LowerChar(a[i]) == LowerChar(b[i])
  }

  /** Equal ignoring case is equal once lower-cased. */
  lemma EqualFoldLower(a: string, b: string)
    ensures EqualFold(a, b) <==> ToLower(a) == ToLower(b)
  {
    if ToLower(a) == ToLower(b) {
      assert forall i :: 0 <= i < |a| ==> ToLower(a)[i] == ToLower(b)[i];
    }
  }

  /** strings.HasPrefix */
  predicate HasPrefix(s: string, p: string) {
    |p| <= |s| && s[..|p|] == p
  }

  /** `p` occurs in `s` starting at index `i`. */
  predicate OccursAt(s: string, p: string, i: int) {
    0 <= i && i + |p| <= |s| && s[i..i + |p|] == p
  }

  /** The first occurrence of `p` in `s` at or after `k`, or -1. */
  function IndexFrom(s: string, p: string, k: nat): (r: int)
    requires k <= |s|
    ensures r == -1 || (k <= r && OccursAt(s, p, r))
    ensures r == -1 ==> forall j :: k <= j ==> !OccursAt(s, p, j)
    ensures r != -1 ==> forall j :: k <= j < r ==> !OccursAt(s, p, j)
    decreases |s| - k
  {
    if OccursAt(s, p, k) then k
    else if k == |s| then -1
    else IndexFrom(s, p, k + 1)
  }

  /** strings.Index: the first occurrence of `p` in `s`, or -1. */
  function IndexOf(s: string, p: string): (r: int)
    ensures r == -1 || OccursAt(s, p, r)
    ensures r == -1 ==> forall j :: !OccursAt(s, p, j)
    ensures r != -1 ==> forall j :: 0 <= j < r ==> !OccursAt(s, p, j)
  {
    IndexFrom(s, p, 0)
  }

  /** strings.Contains */
  predicate Contains(s: string, p: string) {
    IndexOf(s, p) >= 0
  }

  /** A text that holds `p` still holds it with anything around it. */
  lemma ContainsInside(a: string, b: string, c: string, p: string)
    requires Contains(b, p)
    ensures Contains(a + b + c, p)
  {
    var i := IndexOf(b, p);
    var s := a + b + c;
    assert s[|a| + i..|a| + i + |p|] == b[i..i + |p|];
    assert OccursAt(s, p, |a| + i);
  }

  lemma OccursAtChar(s: string, c: char, i: int)
    ensures OccursAt(s, [c], i) <==> 0 <= i < |s| && s[i] == c
  {
    if 0 <= i < |s| {
      assert s[i..i + 1] == [s[i]];
    }
  }

  /** `IndexOf` of a one-character pattern, in terms of characters. */
  lemma IndexOfChar(s: string, c: char)
    ensures var r := IndexOf(s, [c]);
      (r >= 0 ==> r < |s| && s[r] == c && forall k :: 0 <= k < r ==> s[k] != c) &&
      (r < 0 ==> forall k :: 0 <= k < |s| ==> s[k] != c)
  {
    var r := IndexOf(s, [c]);
    if r >= 0 {
      OccursAtChar(s, c, r);
    }
    forall k | 0 <= k < |s| && (r < 0 || k < r) ensures s[k] != c {
      OccursAtChar(s, c, k);
    }
  }

  /** The first index at or after `k` whose character is in `cs`, or -1. */
  function IndexAnyFrom(s: string, cs: set<char>, k: nat): (r: int)
    requires k <= |s|
    ensures r == -1 || (k <= r < |s| && s[r] in cs)
    ensures r == -1 ==> forall j :: k <= j < |s| ==> s[j] !in cs
    ensures r != -1 ==> forall j :: k <= j < r ==> s[j] !in cs
    decreases |s| - k
  {
    if k == |s| then -1
    else if s[k] in cs then k
    else IndexAnyFrom(s, cs, k + 1)
  }

  /** strings.IndexAny */
  function IndexAny(s: string, cs: set<char>): (r: int)
    ensures r == -1 || (0 <= r < |s| && s[r] in cs)
    ensures r == -1 ==> forall j :: 0 <= j < |s| ==> s[j] !in cs
    ensures r != -1 ==> forall j :: 0 <= j < r ==> s[j] !in cs
  {
    IndexAnyFrom(s, cs, 0)
  }

  /** Leading white space removed. */
  function TrimLeft(s: string): (r: string)
    ensures |r| <= |s| && r == s[|s| - |r|..]
    ensures r == [] || !IsSpace(r[0])
    ensures forall i :: 0 <= i < |s| - |r| ==> IsSpace(s[i])
  {
    if s != [] && IsSpace(s[0]) then
      var r := TrimLeft(s[1..]);
      assert forall i :: 1 <= i < |s| - |r| ==> s[i] == s[1..][i - 1];
      r
    else s
  }

  /** Trailing white space removed. */
  function TrimRight(s: string): (r: string)
    ensures |r| <= |s| && r == s[..|r|]
    ensures r == [] || !IsSpace(r[|r| - 1])
    ensures forall i :: |r| <= i < |s| ==> IsSpace(s[i])
  {
    if s != [] && IsSpace(s[|s| - 1]) then TrimRight(s[..|s| - 1]) else s
  }

  /** strings.TrimSpace */
  function TrimSpace(s: string): (r: string)
  {
    TrimRight(TrimLeft(s))
  }

  /** TrimSpace leaves a string whose ends are not white space; it is empty
      exactly when the input is all white space. */
  lemma TrimSpaceShape(s: string)
    ensures var r := TrimSpace(s); r == [] || (!IsSpace(r[0]) && !IsSpace(r[|r| - 1]))
    ensures TrimSpace(s) == [] <==> forall i :: 0 <= i < |s| ==> IsSpace(s[i])
  {
    var l := TrimLeft(s);
    var r := TrimRight(l);
    var a := |s| - |l|;
    if r != [] {
      assert r[0] == l[0];
      assert !IsSpace(r[0]);
    }
    if r == [] {
      forall i | 0 <= i < |s| ensures IsSpace(s[i]) {
        if i >= a {
          assert l[i - a] == s[i];
        }
      }
    } else {
      assert s[a] == l[0];
    }
  }

  /** strings.TrimRight(s, [c]): all trailing copies of `c` removed. */
  function TrimRightChar(s: string, c: char): (r: string)
    ensures |r| <= |s| && r == s[..|r|]
    ensures r == [] || r[|r| - 1] != c
  {
    if s != [] && s[|s| - 1] == c then TrimRightChar(s[..|s| - 1], c) else s
  }

  /** The first white-space index at or after `k`, or |s|. */
  function SpaceFrom(s: string, k: nat): (r: nat)
    requires k <= |s|
    ensures k <= r <= |s|
    ensures forall j :: k <= j < r ==> !IsSpace(s[j])
    ensures r < |s| ==> IsSpace(s[r])
    decreases |s| - k
  {
    if k == |s| || IsSpace(s[k]) then k else SpaceFrom(s, k + 1)
  }

  /** strings.Fields: the maximal runs of non-white-space characters. */
  function Fields(s: string): seq<string>
    decreases |s|
  {
    var t := TrimLeft(s);
    if t == [] then []
    else
      var n := SpaceFrom(t, 0);
      [t[..n]] + Fields(t[n..])
  }

  /** A word: a non-empty run of non-white-space characters. */
  predicate IsWord(w: string) {
    w != [] && forall j :: 0 <= j < |w| ==> !IsSpace(w[j])
  }

  /** A word is its own only field. */
  lemma FieldsOfWord(w: string)
    requires IsWord(w)
    ensures Fields(w) == [w]
  {
    assert TrimLeft(w) == w;
    assert SpaceFrom(w, 0) == |w|;
    assert w[..|w|] == w && w[|w|..] == [];
    assert Fields([]) == [];
  }

  /** A word followed by a space is the first field. */
  lemma FieldsOfWordThen(w: string, rest: string)
    requires IsWord(w)
    ensures Fields(w + " " + rest) == [w] + Fields(rest)
  {
    var u := " " + rest;
    var t := w + u;
    assert t == w + " " + rest;
    assert t[0] == w[0];
    assert TrimLeft(t) == t;
    assert SpaceFrom(t, 0) == |w| by {
      assert t[|w|] == ' ';
      forall j | 0 <= j < |w| ensures !IsSpace(t[j]) {
        assert t[j] == w[j];
      }
    }
    assert t[..|w|] == w && t[|w|..] == u;
    assert Fields(t) == [w] + Fields(u);
    FieldsAfterSpace(rest);
  }

  /** A leading space starts no field. */
  lemma FieldsAfterSpace(rest: string)
    ensures Fields(" " + rest) == Fields(rest)
  {
    assert (" " + rest)[1..] == rest;
    assert TrimLeft(" " + rest) == TrimLeft(rest);
  }

  predicate Avoids(s: string, c: char) {
    forall k :: 0 <= k < |s| ==> s[k] != c
  }

  /** Every field is a word. */
  lemma {:induction false} FieldsAreWords(s: string)
    ensures forall i :: 0 <= i < |Fields(s)| ==> IsWord(Fields(s)[i])
    decreases |s|
  {
    var t := TrimLeft(s);
    if t != [] {
      var n := SpaceFrom(t, 0);
      var rest := Fields(t[n..]);
      FieldsAreWords(t[n..]);
      var r := Fields(s);
      assert r == [t[..n]] + rest;
      forall i | 0 <= i < |r| ensures IsWord(r[i]) {
        if i > 0 { assert r[i] == rest[i - 1]; }
      }
    }
  }

  /** `p` holds of every character of `w`. */
  predicate All(w: string, p: char -> bool) {
    forall j :: 0 <= j < |w| ==> p(w[j])
  }

  /** A property of every non-white-space character of `s` holds of every
      character of its fields. */
  lemma {:induction false} FieldsKeep(s: string, p: char -> bool)
    requires forall k :: 0 <= k < |s| && !IsSpace(s[k]) ==> p(s[k])
    ensures forall i :: 0 <= i < |Fields(s)| ==> All(Fields(s)[i], p)
    decreases |s|
  {
    var t := TrimLeft(s);
    if t != [] {
      var n := SpaceFrom(t, 0);
      var u := t[n..];
      KeepSuffix(s, t, n, p);
      FieldsKeep(u, p);
      FieldsStep(s);
      AllCons(t[..n], Fields(u), p);
    }
  }

  /** A property of every word carries over to a word put in front. */
  lemma AllCons(w: string, ws: seq<string>, p: char -> bool)
    requires All(w, p) && forall i :: 0 <= i < |ws| ==> All(ws[i], p)
    ensures forall i :: 0 <= i < |[w] + ws| ==> All(([w] + ws)[i], p)
  {
    forall i | 0 <= i < |[w] + ws| ensures All(([w] + ws)[i], p) {
      if i > 0 {
        assert ([w] + ws)[i] == ws[i - 1];
      }
    }
  }

  lemma KeepSuffix(s: string, t: string, n: nat, p: char -> bool)
    requires forall k :: 0 <= k < |s| && !IsSpace(s[k]) ==> p(s[k])
    requires |t| <= |s| && t == s[|s| - |t|..] && n <= |t|
    requires forall j :: 0 <= j < n ==> !IsSpace(t[j])
    ensures All(t[..n], p)
    ensures forall k :: 0 <= k < |t[n..]| && !IsSpace(t[n..][k]) ==> p(t[n..][k])
  {
    var d := |s| - |t|;
    forall k | 0 <= k < |t| ensures t[k] == s[d + k] {
    }
  }

  lemma AvoidsJoin(a: string, b: string, c: char)
    requires Avoids(a, c) && Avoids(b, c)
    ensures Avoids(a + b, c)
  {
    forall k | |a| <= k < |a + b| ensures (a + b)[k] != c {
      assert (a + b)[k] == b[k - |a|];
    }
  }

  predicate NotSpace(c: char) {
    !IsSpace(c)
  }

  /** The characters of `s` for which `p` holds, in order. */
  function Filter(s: string, p: char -> bool): (r: string)
    ensures |r| <= |s|
  {
    if s == [] then []
    else (if p(s[0]) then [s[0]] else []) + Filter(s[1..], p)
  }

  lemma {:induction false} FilterAppend(a: string, b: string, p: char -> bool)
    ensures Filter(a + b, p) == Filter(a, p) + Filter(b, p)
  {
    if a == [] {
      assert a + b == b;
    } else {
      var head := if p(a[0]) then [a[0]] else [];
      assert (a + b)[0] == a[0] && (a + b)[1..] == a[1..] + b;
      assert Filter(a + b, p) == head + Filter(a[1..] + b, p);
      FilterAppend(a[1..], b, p);
      assert Filter(a, p) == head + Filter(a[1..], p);
    }
  }

  /** Filtering keeps a text all of whose characters pass. */
  lemma {:induction false} FilterAll(s: string, p: char -> bool)
    requires All(s, p)
    ensures Filter(s, p) == s
  {
    if s != [] {
      FilterAll(s[1..], p);
    }
  }

  /** Filtering empties a text none of whose characters pass. */
  lemma {:induction false} FilterNone(s: string, p: char -> bool)
    requires forall j :: 0 <= j < |s| ==> !p(s[j])
    ensures Filter(s, p) == []
  {
    if s != [] {
      FilterNone(s[1..], p);
    }
  }

  /** The concatenation of the words. */
  function Concat(ws: seq<string>): string {
    if ws == [] then [] else ws[0] + Concat(ws[1..])
  }

  /** The fields of a text, put back together, are its non-white-space
      characters. */
  lemma {:induction false} FieldsConcat(s: string)
    ensures Concat(Fields(s)) == Filter(s, NotSpace)
    decreases |s|
  {
    var t := TrimLeft(s);
    SkipSpaces(s, t);
    if t != [] {
      var n := SpaceFrom(t, 0);
      assert n > 0 by {
        assert !IsSpace(t[0]);
      }
      var w, rest := t[..n], t[n..];
      FieldsConcat(rest);
      WordThenRest(t);
      FieldsStep(s);
      ConcatCons(w, Fields(rest));
      assert Concat(Fields(s)) == w + Concat(Fields(rest));
    }
  }

  /** The definition of `Fields` for a text with a word: the word, then the
      fields of what follows it. */
  lemma FieldsStep(s: string)
    requires TrimLeft(s) != []
    ensures var t := TrimLeft(s); var n := SpaceFrom(t, 0);
      Fields(s) == [t[..n]] + Fields(t[n..])
  {
  }

  /** Concatenating a word put in front. */
  lemma ConcatCons(w: string, ws: seq<string>)
    ensures Concat([w] + ws) == w + Concat(ws)
  {
    assert ([w] + ws)[1..] == ws;
  }

  /** Leading white space adds nothing to the non-space characters. */
  lemma SkipSpaces(s: string, t: string)
    requires |t| <= |s| && t == s[|s| - |t|..]
    requires forall i :: 0 <= i < |s| - |t| ==> IsSpace(s[i])
    ensures Filter(s, NotSpace) == Filter(t, NotSpace)
  {
    var d := |s| - |t|;
    assert s == s[..d] + t;
    FilterAppend(s[..d], t, NotSpace);
    FilterNone(s[..d], NotSpace);
  }

  /** The first word of a text keeps all its characters. */
  lemma WordThenRest(t: string)
    ensures var n := SpaceFrom(t, 0); Filter(t, NotSpace) == t[..n] + Filter(t[n..], NotSpace)
  {
    var n := SpaceFrom(t, 0);
    assert t == t[..n] + t[n..];
    FilterAppend(t[..n], t[n..], NotSpace);
    FilterAll(t[..n], NotSpace);
  }

  /** Filtering a join whose separator never passes, of words whose
      characters all pass, gives the words run together. */
  lemma {:induction false} JoinFilter(ws: seq<string>, sep: string, p: char -> bool)
    requires forall i :: 0 <= i < |ws| ==> All(ws[i], p)
    requires forall j :: 0 <= j < |sep| ==> !p(sep[j])
    ensures Filter(Join(ws, sep), p) == Concat(ws)
  {
    if |ws| == 1 {
      FilterAll(ws[0], p);
      assert Concat(ws) == ws[0] + Concat([]);
    } else if |ws| >= 2 {
      JoinFilter(ws[1..], sep, p);
      FilterAppend(ws[0] + sep, Join(ws[1..], sep), p);
      FilterAppend(ws[0], sep, p);
      FilterAll(ws[0], p);
      FilterNone(sep, p);
    }
  }

  /** strings.Join */
  function Join(ws: seq<string>, sep: string): string
  {
    if ws == [] then []
    else if |ws| == 1 then ws[0]
    else ws[0] + sep + Join(ws[1..], sep)
  }

  /** strings.Split(s, [c]): the pieces between the separators, at least one. */
  function Split(s: string, c: char): (r: seq<string>)
    ensures |r| >= 1
    decreases |s|
  {
    var i := IndexOf(s, [c]);
    if i < 0 then [s]
    else
      OccursAtChar(s, c, i);
      [s[..i]] + Split(s[i + 1..], c)
  }

  /** strings.LastIndex(s, [c]): the last index holding `c`, or -1. */
  function LastIndexOfChar(s: string, c: char): (r: int)
    ensures -1 <= r < |s|
    ensures r >= 0 ==> s[r] == c && forall k :: r < k < |s| ==> s[k] != c
    ensures r < 0 ==> Avoids(s, c)
  {
    if s == [] then -1
    else if s[|s| - 1] == c then |s| - 1
    else LastIndexOfChar(s[..|s| - 1], c)
  }

  predicate IsDigit(c: char) {
    '0' <= c <= '9'
  }

  /** The length of the run of decimal digits starting at `k`. */
  function DigitRun(s: string, k: nat): (n: nat)
    requires k <= |s|
    ensures k + n <= |s|
    ensures forall j :: k <= j < k + n ==> IsDigit(s[j])
    ensures k + n < |s| ==> !IsDigit(s[k + n])
    decreases |s| - k
  {
    if k < |s| && IsDigit(s[k]) then 1 + DigitRun(s, k + 1) else 0
  }

  /** A run of `n` digits that ends the text or a non-digit is the run. */
  lemma {:induction false} DigitRunIs(s: string, k: nat, n: nat)
    requires k + n <= |s|
    requires forall j :: k <= j < k + n ==> IsDigit(s[j])
    requires k + n == |s| || !IsDigit(s[k + n])
    ensures DigitRun(s, k) == n
    decreases n
  {
    if n > 0 {
      DigitRunIs(s, k + 1, n - 1);
    }
  }

  /** The value of a decimal digit; only digits are ever read. */
  function DigitValue(c: char): nat {
    if IsDigit(c) then c as int - '0' as int else 0
  }

  /** The value of a string of decimal digits. */
  function DecimalValue(s: string): nat {
    if s == [] then 0 else 10 * DecimalValue(s[..|s| - 1]) + DigitValue(s[|s| - 1])
  }

  /** Reading back the decimal rendering of `n` gives `n`. */
  lemma {:induction false} DecimalValueOfNatToString(n: nat)
    ensures DecimalValue(NatToString(n)) == n
  {
    if n >= 10 {
      var r := NatToString(n);
      var init := NatToString(n / 10);
      assert r == init + [Digit(n % 10)];
      assert r[..|r| - 1] == init;
      DecimalValueOfNatToString(n / 10);
    }
  }

  /** The decimal rendering of a natural number (fmt's %d). */
  function NatToString(n: nat): (r: string)
    ensures r != []
    ensures forall i :: 0 <= i < |r| ==> '0' <= r[i] <= '9'
  {
    if n < 10 then [Digit(n)] else NatToString(n / 10) + [Digit(n % 10)]
  }

  function Digit(d: nat): (c: char)
    requires d < 10
    ensures '0' <= c <= '9'
  {
    ('0' as int + d) as char
  }

  /** fmt's %q of a text without quotes, backslashes or control
      characters: the text between double quotes. */
  function Quote(s: string): string {
    "\"" + s + "\""
  }
}
