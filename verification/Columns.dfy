/** What the stored list columns of a client list, in terms of the stored text alone. */
module Columns {
  import opened Ordered
  import opened Scopes
  import opened Tables
  import opened Text
  import opened TextLaws

  /** `text[i..j]` is what stands between two neighbouring separators. */
  predicate Segment(text: string, i: nat, j: nat) {
    && i <= j <= |text| && Plain(text[i..j])
    && (i == 0 || Separator(text[i - 1])) && (j == |text| || Separator(text[j]))
  }

  /** Some segment of the text is `x` once stripped. */
  predicate ListsInText(text: string, x: string) {
    x != "" && exists i, j :: 0 <= i <= j <= |text| && Segment(text, i, j) && Strip(text[i..j]) == x
  }

  /** The redirect column lists `x`: a JSON list by an entry that strips to it, a text by a segment. */
  predicate Lists(column: StoredList, x: string) {
    match column
    case JsonList(items) => x != "" && exists k :: 0 <= k < |items| && Strip(items[k]) == x
    case PlainText(text) => ListsInText(text, x)
  }

  /** The scope column lists `x`: a JSON list by that very entry, a text by a segment. */
  predicate ListsVerbatim(column: StoredList, x: string) {
    match column
    case JsonList(items) => x in items && Strip(x) != ""
    case PlainText(text) => ListsInText(text, x)
  }

  // ---------------------------------------------------------------- scope strings

  /** `s[i..j]` is a word with spaces or nothing around it. */
  predicate WordAt(s: string, i: nat, j: nat) {
    && i < j <= |s| && IsWord(s[i..j]) && (i == 0 || IsSpace(s[i - 1])) && (j == |s| || IsSpace(s[j]))
  }

  /** A scope string asks for the words in it; an empty one for the three standard scopes. */
  lemma ScopesAsked(scope: string, w: string)
    ensures w in NormalizeScopes(scope) <==>
            if scope == "" then w in ["openid", "profile", "email"]
            else exists i, j :: 0 <= i < j <= |scope| && WordAt(scope, i, j) && scope[i..j] == w
  {
    if scope != "" {
      WordsAreAt(scope, w);
    }
    hide WordAt, Words;
  }

  lemma {:induction false} WordsAreAt(s: string, w: string)
    ensures w in Words(s) <==> exists i, j :: 0 <= i < j <= |s| && WordAt(s, i, j) && s[i..j] == w
    decreases |s|
  {
    if s == "" {
    } else {
      var n := if IsSpace(s[0]) then 1 else WordLength(s);
      WordsAreAt(s[n..], w);
      Shift(s, n, w);
      WordsStep(s, n);
      hide *;
    }
  }

  lemma WordsStep(s: string, n: nat)
    requires s != "" && n == if IsSpace(s[0]) then 1 else WordLength(s)
    ensures 0 < n <= |s| && (IsWord(s[..n]) <==> !IsSpace(s[0]))
    ensures Words(s) == (if IsSpace(s[0]) then [] else [s[..n]]) + Words(s[n..])
  {
    assert IsSpace(s[0]) ==> s[..n][0] == s[0];
  }

  /** Dropping a space or a whole first word drops no other word. */
  lemma Shift(s: string, n: nat, w: string)
    requires 0 < n <= |s|
    requires (n == 1 && IsSpace(s[0])) || (IsWord(s[..n]) && (n == |s| || IsSpace(s[n])))
    ensures var t := s[n..];
            (exists i, j :: 0 <= i < j <= |s| && WordAt(s, i, j) && s[i..j] == w)
            <==> (w == s[..n] && IsWord(s[..n])) || exists i, j :: 0 <= i < j <= |t| && WordAt(t, i, j) && t[i..j] == w
  {
    var t := s[n..];
    hide IsSpace, IsWord, WordAt;
    if i, j :| 0 <= i < j <= |s| && WordAt(s, i, j) && s[i..j] == w {
      ShiftDown(s, n, i, j);
    }
    if i, j :| 0 <= i < j <= |t| && WordAt(t, i, j) && t[i..j] == w {
      ShiftUp(s, n, i, j);
    }
    if w == s[..n] && IsWord(s[..n]) {
      FirstWord(s, n);
    }
  }

  lemma FirstWord(s: string, n: nat)
    requires 0 < n <= |s| && IsWord(s[..n]) && (n == |s| || IsSpace(s[n]) || (n == 1 && IsSpace(s[0])))
    ensures s[0..n] == s[..n] && WordAt(s, 0, n)
  {
    hide IsSpace;
    assert s[0..n] == s[..n];
    assert s[..n][0] == s[0];
  }

  lemma ShiftDown(s: string, n: nat, i: nat, j: nat)
    requires 0 < n <= |s| && WordAt(s, i, j)
    requires (n == 1 && IsSpace(s[0])) || (IsWord(s[..n]) && (n == |s| || IsSpace(s[n])))
    ensures if i < n then i == 0 && j == n && s[i..j] == s[..n]
            else WordAt(s[n..], i - n, j - n) && s[n..][i - n..j - n] == s[i..j]
  {
    hide IsSpace;
    var word := s[i..j];
    assert forall m :: i <= m < j ==> s[m] == word[m - i];
    assert forall m :: 0 <= m < n ==> s[m] == s[..n][m];
    if i >= n {
      assert s[n..][i - n..j - n] == word;
    } else {
      assert i == 0 && j == n;
    }
  }

  lemma ShiftUp(s: string, n: nat, i: nat, j: nat)
    requires 0 < n <= |s| && WordAt(s[n..], i, j)
    requires (n == 1 && IsSpace(s[0])) || (IsWord(s[..n]) && (n == |s| || IsSpace(s[n])))
    ensures WordAt(s, i + n, j + n) && s[i + n..j + n] == s[n..][i..j]
  {
    hide IsSpace;
    var t := s[n..];
    assert s[i + n..j + n] == t[i..j];
    assert i == 0 ==> t[i..j][0] == s[n];
    assert i > 0 ==> s[i + n - 1] == t[i - 1];
    assert j < |t| ==> s[j + n] == t[j];
  }

  // ---------------------------------------------------------------- text columns

  function FirstSeparator(text: string): (k: nat)
    requires !Plain(text)
    ensures k < |text| && Separator(text[k]) && Plain(text[..k])
  {
    if Separator(text[0]) then 0 else
      assert forall i :: 1 <= i < |text| ==> text[i] == text[1..][i - 1];
      1 + FirstSeparator(text[1..])
  }

  lemma {:induction false} PiecesAreSegments(text: string, p: string)
    ensures p in Pieces(text) <==> exists i, j :: 0 <= i <= j <= |text| && Segment(text, i, j) && text[i..j] == p
    decreases |text|
  {
    if Plain(text) {
      PiecesOfPlain(text);
      assert text[0..|text|] == text && Segment(text, 0, |text|);
    } else {
      var k := FirstSeparator(text);
      var a, c, b := text[..k], text[k], text[k + 1..];
      assert text == a + ([c] + b);
      hide Pieces, Segment, Plain, Separator;
      PiecesSplit(a, c, b);
      PiecesOfPlain(a);
      PiecesAreSegments(b, p);
      SegmentsSplit(text, k, p);
      assert p in [a] + Pieces(b) <==> p == a || p in Pieces(b);
    }
  }

  lemma SegmentsSplit(text: string, k: nat, p: string)
    requires k < |text| && Separator(text[k]) && Plain(text[..k])
    ensures var b := text[k + 1..];
            (exists i, j :: 0 <= i <= j <= |text| && Segment(text, i, j) && text[i..j] == p)
            <==> p == text[..k] || exists i, j :: 0 <= i <= j <= |b| && Segment(b, i, j) && b[i..j] == p
  {
    var b := text[k + 1..];
    if i, j :| 0 <= i <= j <= |text| && Segment(text, i, j) && text[i..j] == p {
      assert forall m :: i <= m < j ==> text[m] == text[i..j][m - i];
      assert forall m :: 0 <= m < k ==> text[m] == text[..k][m];
      if i > k {
        assert b[i - k - 1..j - k - 1] == text[i..j];
        assert Segment(b, i - k - 1, j - k - 1);
      } else {
        assert i == 0 && j == k;
        assert text[0..k] == text[..k];
      }
    }
    if i, j :| 0 <= i <= j <= |b| && Segment(b, i, j) && b[i..j] == p {
      assert text[i + k + 1..j + k + 1] == b[i..j];
      assert Segment(text, i + k + 1, j + k + 1);
    }
    if p == text[..k] {
      assert text[0..k] == p && Segment(text, 0, k);
    }
  }

  lemma {:induction false} NonBlankMembers(xs: seq<string>, x: string)
    ensures x in NonBlank(xs) <==> x != "" && exists k :: 0 <= k < |xs| && Strip(xs[k]) == x
  {
    if xs == [] {
    } else {
      NonBlankMembers(xs[1..], x);
      if k :| 0 <= k < |xs[1..]| && Strip(xs[1..][k]) == x {
        assert xs[k + 1] == xs[1..][k];
      }
      if k :| 0 <= k < |xs| && Strip(xs[k]) == x {
        assert k > 0 ==> xs[1..][k - 1] == xs[k];
      }
    }
  }

  lemma TextReads(text: string, x: string)
    ensures x in ListItems(text) <==> ListsInText(text, x)
  {
    var ps := Pieces(text);
    NonBlankMembers(ps, x);
    if k :| 0 <= k < |ps| && Strip(ps[k]) == x {
      PiecesAreSegments(text, ps[k]);
    }
    if i, j :| 0 <= i <= j <= |text| && Segment(text, i, j) && Strip(text[i..j]) == x {
      PiecesAreSegments(text, text[i..j]);
    }
  }

  // ---------------------------------------------------------------- both kinds of column

  /** The redirect column reads as exactly what it lists. */
  lemma ColumnReads(column: StoredList, x: string)
    ensures x in LoadList(column) <==> Lists(column, x)
  {
    match column
    case JsonList(items) => NonBlankMembers(items, x);
    case PlainText(text) => TextReads(text, x);
  }

  /** And the scope column. */
  lemma VerbatimReads(column: StoredList, x: string)
    ensures x in LoadListVerbatim(column) <==> ListsVerbatim(column, x)
  {
    match column
    case JsonList(items) => KeepNonBlankMembers(items, x);
    case PlainText(text) => TextReads(text, x);
  }

  lemma {:induction false} KeepNonBlankMembers(xs: seq<string>, x: string)
    ensures x in KeepNonBlank(xs) <==> x in xs && Strip(x) != ""
  {
    if xs == [] {
    } else {
      KeepNonBlankMembers(xs[1..], x);
      assert xs == [xs[0]] + xs[1..];
    }
  }

  lemma KeepNonBlankStep(x: string, rest: seq<string>)
    ensures KeepNonBlank([x] + rest) == (if Strip(x) == "" then [] else [x]) + KeepNonBlank(rest)
  {
    var xs := [x] + rest;
    assert xs[1..] == rest;
  }

  lemma {:induction false} KeepNonBlankSplit(xs: seq<string>, ys: seq<string>)
    ensures KeepNonBlank(xs + ys) == KeepNonBlank(xs) + KeepNonBlank(ys)
  {
    if xs == [] {
      assert xs + ys == ys;
    } else {
      hide *;
      var x, rest := xs[0], xs[1..];
      assert xs == [x] + rest;
      KeepNonBlankSplit(rest, ys);
      KeepNonBlankStep(x, rest);
      KeepNonBlankStep(x, rest + ys);
      Associates([x], rest, ys);
      Associates(if Strip(x) == "" then [] else [x], KeepNonBlank(rest), KeepNonBlank(ys));
    }
  }

  /** Both readers keep the order of a JSON list, entry by entry. */
  lemma JsonReadsInOrder(a: seq<string>, b: seq<string>)
    ensures LoadList(JsonList(a + b)) == LoadList(JsonList(a)) + LoadList(JsonList(b))
    ensures LoadListVerbatim(JsonList(a + b)) == LoadListVerbatim(JsonList(a)) + LoadListVerbatim(JsonList(b))
  {
    NonBlankSplit(a, b);
    KeepNonBlankSplit(a, b);
  }

  lemma JsonReadsOne(x: string)
    ensures LoadList(JsonList([x])) == if Strip(x) == "" then [] else [Strip(x)]
    ensures LoadListVerbatim(JsonList([x])) == if Strip(x) == "" then [] else [x]
  {
    NonBlankOne(x);
    var one := [x];
    assert one[1..] == [] && KeepNonBlank(one[1..]) == [];
  }

  /** The column holds `entries`, as a JSON list or as comma- or newline-separated text. */
  predicate Holds(column: StoredList, entries: seq<string>) {
    match column
    case JsonList(items) => items == entries
    case PlainText(text) => text == Listed(entries, ',') || text == Listed(entries, '\n')
  }

  /** Entries that need no quoting read back in order from every kind of column, by either reader. */
  lemma HeldEntriesRead(column: StoredList, entries: seq<string>)
    requires Holds(column, entries) && forall x :: x in entries ==> x != "" && Trimmed(x) && Plain(x)
    ensures LoadList(column) == entries && LoadListVerbatim(column) == entries
  {
    match column
    case JsonList(items) =>
      NonBlankFixpoint(items);
      KeepNonBlankFixpoint(items);
    case PlainText(text) =>
      ListedReads(entries, ',');
      ListedReads(entries, '\n');
  }

  lemma {:induction false} KeepNonBlankFixpoint(xs: seq<string>)
    requires forall x :: x in xs ==> x != "" && Trimmed(x)
    ensures KeepNonBlank(xs) == xs
  {
    if xs == [] {
    } else {
      StripFixpoint(xs[0]);
      forall x | x in xs[1..] ensures x in xs {
      }
      KeepNonBlankFixpoint(xs[1..]);
    }
  }
}
