/** What the string operations return, in terms of their inputs alone. */
module TextLaws {
  import opened Ordered
  import opened Text

  // ---------------------------------------------------------------- strip

  /** The space characters, one by one. */
  const SPACES: set<int> := {
    9, 10, 11, 12, 13, 28, 29, 30, 31, 32, 133, 160, 5760, 8192, 8193, 8194, 8195, 8196, 8197, 8198, 8199, 8200, 8201,
    8202, 8232, 8233, 8239, 8287, 12288}

  lemma SpacesAreListed(c: char)
    ensures IsSpace(c) <==> c as int in SPACES
  {
  }

  predicate Spaces(s: string) {
    forall i :: 0 <= i < |s| ==> IsSpace(s[i])
  }

  lemma {:induction false} StripLeftDrops(s: string) returns (k: nat)
    ensures k <= |s| && StripLeft(s) == s[k..] && Spaces(s[..k])
  {
    k := 0;
    if s == "" {
    } else if IsSpace(s[0]) {
      var m := StripLeftDrops(s[1..]);
      k := m + 1;
      assert forall i :: 0 < i < k ==> s[i] == s[1..][..m][i - 1];
    }
  }

  lemma {:induction false} StripRightDrops(s: string) returns (k: nat)
    ensures k <= |s| && StripRight(s) == s[..k] && Spaces(s[k..])
  {
    k := |s|;
    if s == "" {
    } else if IsSpace(s[|s| - 1]) {
      var t := s[..|s| - 1];
      k := StripRightDrops(t);
      assert forall i :: k <= i < |t| ==> s[i] == t[k..][i - k];
    }
  }

  /** `strip` drops spaces from both ends and nothing else. */
  lemma StripDrops(s: string) returns (left: string, right: string)
    ensures s == left + Strip(s) + right && Spaces(left) && Spaces(right)
  {
    var i := StripLeftDrops(s);
    var t := StripLeft(s);
    var j := StripRightDrops(t);
    left, right := s[..i], t[j..];
  }

  /** Only one trimmed string is left when spaces are dropped from both ends. */
  lemma StripIsUnique(s: string, left: string, middle: string, right: string)
    requires s == left + middle + right && Spaces(left) && Spaces(right) && Trimmed(middle)
    ensures Strip(s) == middle
  {
    var l, r := StripDrops(s);
    StripFixpoint(s);
    var t := Strip(s);
    assert s == l + t + r;
    assert middle == "" || t == "" ==> Spaces(s);
    assert (middle != "" ==> s[|left|] == middle[0]) && (t != "" ==> s[|l|] == t[0]);
    if middle != "" && t != "" {
      assert s[|left| + |middle| - 1] == middle[|middle| - 1] && s[|l| + |t| - 1] == t[|t| - 1];
      assert |l| == |left| && |t| == |middle|;
      assert t == s[|l|..|l| + |t|] && middle == s[|left|..|left| + |middle|];
    }
  }

  // ---------------------------------------------------------------- split and join

  /** A word alone splits into itself. */
  lemma WordAlone(w: string)
    requires IsWord(w)
    ensures Words(w) == [w]
  {
    WordFirst(w, "");
    assert w + "" == w;
  }

  lemma WordFirst(w: string, rest: string)
    requires IsWord(w) && (rest == "" || IsSpace(rest[0]))
    ensures Words(w + rest) == [w] + Words(rest)
  {
    WordLengthOf(w, rest);
    assert (w + rest)[..|w|] == w && (w + rest)[|w|..] == rest;
  }

  lemma SpaceFirst(c: char, rest: string)
    requires IsSpace(c)
    ensures Words([c] + rest) == Words(rest)
  {
    assert ([c] + rest)[1..] == rest;
  }

  /** Splitting looks at each side of a space on its own. */
  lemma {:induction false} WordsSplit(a: string, space: char, b: string)
    requires IsSpace(space)
    ensures Words(a + ([space] + b)) == Words(a) + Words(b)
    decreases |a|
  {
    if a == "" {
      SpaceFirst(space, b);
      assert a + ([space] + b) == [space] + b;
    } else if IsSpace(a[0]) {
      hide *;
      var rest := a[1..];
      assert a == [a[0]] + rest;
      WordsSplit(rest, space, b);
      SpaceFirst(a[0], rest);
      SpaceFirst(a[0], rest + ([space] + b));
      Associates([a[0]], rest, [space] + b);
    } else {
      var n := WordLength(a);
      var w, tail := a[..n], a[n..];
      assert IsWord(w) && (tail == "" || IsSpace(tail[0]));
      hide *;
      assert a == w + tail;
      WordsSplit(tail, space, b);
      WordFirst(w, tail);
      assert tail != "" ==> (tail + ([space] + b))[0] == tail[0];
      assert tail == "" ==> (tail + ([space] + b))[0] == space;
      WordFirst(w, tail + ([space] + b));
      Associates(w, tail, [space] + b);
      Associates([w], Words(tail), Words(b));
    }
  }

  function TotalLength(ws: seq<string>): nat {
    if ws == [] then 0 else |ws[0]| + TotalLength(ws[1..])
  }

  /** A join has one space between any two neighbours and adds nothing else. */
  lemma {:induction false} JoinAddsSpaces(ws: seq<string>)
    requires forall w :: w in ws ==> IsWord(w)
    ensures |Join(ws)| == TotalLength(ws) + if ws == [] then 0 else |ws| - 1
    ensures forall i :: 0 <= i < |Join(ws)| && IsSpace(Join(ws)[i]) ==> Join(ws)[i] == ' '
  {
    if ws == [] {
    } else {
      JoinAddsSpaces(ws[1..]);
      assert IsWord(ws[0]);
      if |ws| > 1 {
        assert Join(ws) == ws[0] + (" " + Join(ws[1..]));
      }
    }
  }

  // ---------------------------------------------------------------- case

  /** The two characters are the same ASCII letter in different case. */
  predicate Variants(c: char, d: char) {
    ('a' <= c <= 'z' && d as int == c as int - 32) || ('A' <= c <= 'Z' && d as int == c as int + 32)
  }

  /** The texts differ at most in the case of ASCII letters. */
  predicate SameButCase(s: string, t: string) {
    |s| == |t| && forall i :: 0 <= i < |s| ==> s[i] == t[i] || Variants(s[i], t[i])
  }

  /** Lowering leaves no capital, changes only case, and identifies exactly the texts that differ in case. */
  lemma LowerIsCaseBlind(s: string, t: string)
    ensures forall c :: c in Lower(s) ==> !('A' <= c <= 'Z')
    ensures SameButCase(s, Lower(s))
    ensures Lower(s) == Lower(t) <==> SameButCase(s, t)
  {
    if Lower(s) == Lower(t) {
      forall i | 0 <= i < |s| ensures s[i] == t[i] || Variants(s[i], t[i]) {
        assert Lower(s)[i] == Lower(t)[i];
      }
    }
  }

  /** And raising likewise. */
  lemma UpperIsCaseBlind(s: string, t: string)
    ensures forall c :: c in Upper(s) ==> !('a' <= c <= 'z')
    ensures SameButCase(s, Upper(s))
    ensures Upper(s) == Upper(t) <==> SameButCase(s, t)
  {
    if Upper(s) == Upper(t) {
      forall i | 0 <= i < |s| ensures s[i] == t[i] || Variants(s[i], t[i]) {
        assert Upper(s)[i] == Upper(t)[i];
      }
    }
  }

  /** `in` on strings: an occurrence anywhere. */
  lemma {:induction false} ContainsOccurs(s: string, sub: string)
    ensures Contains(s, sub) <==> exists i :: 0 <= i <= |s| && sub <= s[i..]
  {
    if s == "" {
      assert s[0..] == s;
    } else {
      ContainsOccurs(s[1..], sub);
      assert s[0..] == s;
      assert forall i :: 1 <= i <= |s| ==> s[i..] == s[1..][i - 1..];
      if j :| 0 <= j <= |s[1..]| && sub <= s[1..][j..] {
        assert s[j + 1..] == s[1..][j..];
      }
    }
  }

  // ---------------------------------------------------------------- list columns

  predicate Separator(c: char) {
    c == ',' || c == '\n'
  }

  predicate Plain(s: string) {
    forall i :: 0 <= i < |s| ==> !Separator(s[i])
  }

  lemma {:induction false} PiecesOfPlain(s: string)
    requires Plain(s)
    ensures Pieces(s) == [s]
  {
    if s == "" {
    } else {
      PiecesOfPlain(s[1..]);
      assert [s[0]] + s[1..] == s;
    }
  }

  lemma PiecesStep(c: char, rest: string)
    ensures var ps := Pieces(rest);
            Pieces([c] + rest) == if Separator(c) then [""] + ps else [[c] + ps[0]] + ps[1..]
  {
    assert ([c] + rest)[1..] == rest;
  }

  lemma TailOfConcat(ps: seq<string>, qs: seq<string>)
    requires |ps| > 0
    ensures (ps + qs)[0] == ps[0] && (ps + qs)[1..] == ps[1..] + qs
  {
  }

  lemma {:induction false} PiecesSplit(a: string, c: char, b: string)
    requires Separator(c)
    ensures Pieces(a + ([c] + b)) == Pieces(a) + Pieces(b)
  {
    if a == "" {
      PiecesStep(c, b);
      assert a + ([c] + b) == [c] + b;
    } else {
      hide *;
      var d, rest := a[0], a[1..];
      assert a == [d] + rest;
      Associates([d], rest, [c] + b);
      PiecesSplit(rest, c, b);
      PiecesStep(d, rest);
      PiecesStep(d, rest + ([c] + b));
      var ps, qs := Pieces(rest), Pieces(b);
      if Separator(d) {
        Associates([""], ps, qs);
      } else {
        TailOfConcat(ps, qs);
        Associates([[d] + ps[0]], ps[1..], qs);
      }
    }
  }

  lemma NonBlankStep(x: string, rest: seq<string>)
    ensures NonBlank([x] + rest) == (if Strip(x) == "" then [] else [Strip(x)]) + NonBlank(rest)
  {
    var xs := [x] + rest;
    assert xs[1..] == rest;
  }

  lemma {:induction false} NonBlankSplit(xs: seq<string>, ys: seq<string>)
    ensures NonBlank(xs + ys) == NonBlank(xs) + NonBlank(ys)
  {
    if xs == [] {
      assert xs + ys == ys;
    } else {
      hide *;
      var x, rest := xs[0], xs[1..];
      assert xs == [x] + rest;
      NonBlankSplit(rest, ys);
      NonBlankStep(x, rest);
      NonBlankStep(x, rest + ys);
      Associates([x], rest, ys);
      Associates(if Strip(x) == "" then [] else [Strip(x)], NonBlank(rest), NonBlank(ys));
    }
  }

  lemma NonBlankOne(x: string)
    ensures NonBlank([x]) == if Strip(x) == "" then [] else [Strip(x)]
  {
    var one := [x];
    assert one[1..] == [] && NonBlank(one[1..]) == [];
  }

  /** A text column reads as what is on either side of a comma or newline, in order. */
  lemma ListItemsSplit(a: string, c: char, b: string)
    requires Separator(c)
    ensures ListItems(a + [c] + b) == ListItems(a) + ListItems(b)
  {
    PiecesSplit(a, c, b);
    NonBlankSplit(Pieces(a), Pieces(b));
    Associates(a, [c], b);
  }

  /** A text without separators is one entry, stripped, or none when blank. */
  lemma ListItemsOfPlain(s: string)
    requires Plain(s)
    ensures ListItems(s) == if Strip(s) == "" then [] else [Strip(s)]
  {
    PiecesOfPlain(s);
    NonBlankOne(s);
  }

  /** The text that lists `entries` with a separator between neighbours. */
  function Listed(entries: seq<string>, c: char): string {
    if entries == [] then ""
    else if |entries| == 1 then entries[0]
    else entries[0] + [c] + Listed(entries[1..], c)
  }

  /** A comma- or newline-separated text of entries reads as those entries. */
  lemma {:induction false} ListedReads(entries: seq<string>, c: char)
    requires Separator(c) && forall x :: x in entries ==> x != "" && Trimmed(x) && Plain(x)
    ensures ListItems(Listed(entries, c)) == entries
  {
    if entries == [] {
    } else {
      var x, rest := entries[0], entries[1..];
      assert entries == [x] + rest;
      forall y | y in rest ensures y in entries {
      }
      ListedStep(x, rest, c);
      hide Listed, ListItems, Separator, Plain, Trimmed;
      ListedReads(rest, c);
      ListItemsOfPlain(x);
      StripFixpoint(x);
      if rest != [] {
        ListItemsSplit(x, c, Listed(rest, c));
      }
    }
  }

  lemma ListedStep(x: string, rest: seq<string>, c: char)
    ensures Listed([x] + rest, c) == if rest == [] then x else x + [c] + Listed(rest, c)
  {
    assert ([x] + rest)[1..] == rest;
  }
}
