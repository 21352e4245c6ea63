/**
 * The few `java.lang.String` operations the key builder relies on:
 * `trim`, `String.join`, `split("\\.")` and the decimal rendering that
 * `"p" + i` performs.
 */
module JavaText {

  /** `String.trim` treats every character at or below U+0020 as space. */
  predicate IsSpace(c: char) {
    c <= ' '
  }

  /** `r` is `s` with its maximal leading and trailing runs of spaces removed. */
  ghost predicate IsTrimOf(r: string, s: string) {
    exists lo, hi | 0 <= lo <= hi <= |s| ::
      && r == s[lo..hi]
      && (forall i | 0 <= i < lo :: IsSpace(s[i]))
      && (forall i | hi <= i < |s| :: IsSpace(s[i]))
      && (r == [] || (!IsSpace(r[0]) && !IsSpace(r[|r| - 1])))
  }

  /** `s` without its leading spaces. */
  function TrimLeft(s: string): (r: string)
    ensures |r| <= |s|
  {
    if s != [] && IsSpace(s[0]) then TrimLeft(s[1..]) else s
  }

  /** `s` without its trailing spaces. */
  function TrimRight(s: string): (r: string)
    ensures |r| <= |s|
  {
    if s != [] && IsSpace(s[|s| - 1]) then TrimRight(s[..|s| - 1]) else s
  }

  /** Java's `String.trim()`. */
  function Trim(s: string): string {
    TrimRight(TrimLeft(s))
  }

  /** What `TrimLeft` removes is spaces, up to the first non-space. */
  lemma {:induction false} TrimLeftDrops(s: string)
    ensures var r := TrimLeft(s);
            && r == s[|s| - |r|..]
            && (forall i | 0 <= i < |s| - |r| :: IsSpace(s[i]))
            && (r == [] || !IsSpace(r[0]))
    decreases |s|
  {
    if s != [] && IsSpace(s[0]) {
      TrimLeftDrops(s[1..]);
    }
  }

  /** What `TrimRight` removes is spaces, back to the last non-space. */
  lemma {:induction false} TrimRightDrops(s: string)
    ensures var r := TrimRight(s);
            && r == s[..|r|]
            && (forall i | |r| <= i < |s| :: IsSpace(s[i]))
            && (r == [] || !IsSpace(r[|r| - 1]))
    decreases |s|
  {
    if s != [] && IsSpace(s[|s| - 1]) {
      TrimRightDrops(s[..|s| - 1]);
    }
  }

  /** Trimming removes exactly the maximal runs of spaces at both ends; only an all-space string trims to empty. */
  lemma TrimRemovesEndSpace(s: string)
    ensures IsTrimOf(Trim(s), s)
    ensures Trim(s) == [] <==> forall i | 0 <= i < |s| :: IsSpace(s[i])
  {
    TrimLeftDrops(s);
    TrimRightDrops(TrimLeft(s));
    TrimWindow(s, TrimLeft(s), Trim(s));
  }

  /** A left trim `l` of `s` followed by a right trim `r` of `l` leaves a window of `s` framed by spaces. */
  lemma TrimWindow(s: string, l: string, r: string)
    requires |l| <= |s| && l == s[|s| - |l|..]
    requires forall i | 0 <= i < |s| - |l| :: IsSpace(s[i])
    requires l == [] || !IsSpace(l[0])
    requires |r| <= |l| && r == l[..|r|]
    requires forall i | |r| <= i < |l| :: IsSpace(l[i])
    requires r == [] || !IsSpace(r[|r| - 1])
    ensures IsTrimOf(r, s)
    ensures r == [] <==> forall i | 0 <= i < |s| :: IsSpace(s[i])
  {
    var lo := |s| - |l|;
    var hi := lo + |r|;
    assert r == s[lo..hi];
    assert forall i | hi <= i < |s| :: s[i] == l[i - lo];
    assert r != [] ==> !IsSpace(r[0]) by {
      if r != [] {
        assert r[0] == l[0];
      }
    }
    assert IsTrimOf(r, s);
    if r == [] {
      // A non-empty all-space `l` would start with a space, so `l` is empty.
      assert l == [];
    } else {
      assert s[lo] == r[0];
    }
  }

  /** `s.trim().isEmpty()`. */
  predicate IsBlank(s: string) {
    Trim(s) == []
  }

  /** Java's `String.join(d, parts)`: the parts with `d` between neighbours. */
  function Join(d: string, parts: seq<string>): (r: string)
  {
    if parts == [] then []
    else if |parts| == 1 then parts[0]
    else Join(d, parts[..|parts| - 1]) + d + parts[|parts| - 1]
  }

  /** Joining two non-empty lists puts exactly one delimiter at the seam. */
  lemma {:induction false} JoinConcat(d: string, a: seq<string>, b: seq<string>)
    requires a != [] && b != []
    ensures Join(d, a + b) == Join(d, a) + d + Join(d, b)
    decreases |b|
  {
    if |b| == 1 {
      assert (a + b)[..|a + b| - 1] == a;
    } else {
      var b' := b[..|b| - 1];
      assert (a + b)[..|a + b| - 1] == a + b';
      JoinConcat(d, a, b');
    }
  }

  /** The length of a joined list: all parts plus one delimiter per seam. */
  function TotalLength(parts: seq<string>): nat {
    if parts == [] then 0 else TotalLength(parts[..|parts| - 1]) + |parts[|parts| - 1]|
  }

  lemma {:induction false} JoinLength(d: string, parts: seq<string>)
    requires parts != []
    ensures |Join(d, parts)| == TotalLength(parts) + (|parts| - 1) * |d|
    decreases |parts|
  {
    var n := |parts|;
    if n > 1 {
      var init := parts[..n - 1];
      JoinLength(d, init);
      assert Join(d, parts) == Join(d, init) + d + parts[n - 1];
      assert TotalLength(parts) == TotalLength(init) + |parts[n - 1]|;
      assert (n - 1) * |d| == (n - 2) * |d| + |d|;
    } else {
      assert parts[..0] == [];
    }
  }

  /** Every piece between the dots of `s`, empty ones included. */
  function Pieces(s: string): (r: seq<string>)
    ensures |r| >= 1
    decreases |s|
  {
    if s == [] then [[]]
    else
      var init := Pieces(s[..|s| - 1]);
      var c := s[|s| - 1];
      if c == '.' then init + [[]]
      else init[..|init| - 1] + [init[|init| - 1] + [c]]
  }

  /** The pieces contain no dot and, joined with dots, give back the string. */
  lemma {:induction false} PiecesJoin(s: string)
    ensures forall i | 0 <= i < |Pieces(s)| :: '.' !in Pieces(s)[i]
    ensures Join(".", Pieces(s)) == s
    decreases |s|
  {
    if s != [] {
      var s', c := s[..|s| - 1], s[|s| - 1];
      PiecesJoin(s');
      assert s == s' + [c];
      PiecesSnoc(s', c);
      var p := Pieces(s');
      if c == '.' {
        JoinSnoc(".", p, []);
        assert Join(".", p) + "." + [] == s;
      } else {
        JoinExtendLast(".", p, [c]);
        DotFreeExtendLast(p, c);
      }
    }
  }

  /** One more part adds a delimiter and the part. */
  lemma JoinSnoc(d: string, p: seq<string>, x: string)
    requires p != []
    ensures Join(d, p + [x]) == Join(d, p) + d + x
  {
    assert (p + [x])[..|p|] == p;
  }

  /** Extending the last part extends the join. */
  lemma JoinExtendLast(d: string, p: seq<string>, x: string)
    requires p != []
    ensures Join(d, p[..|p| - 1] + [p[|p| - 1] + x]) == Join(d, p) + x
  {
    var q, l := p[..|p| - 1], p[|p| - 1];
    if q == [] {
      assert p == [l];
      assert q + [l + x] == [l + x];
    } else {
      JoinSnoc(d, q, l + x);
      JoinSnoc(d, q, l);
      assert p == q + [l];
    }
  }

  /** Extending the last of dot-free parts by a character other than a dot keeps them dot-free. */
  lemma DotFreeExtendLast(p: seq<string>, c: char)
    requires p != [] && c != '.'
    requires forall i | 0 <= i < |p| :: '.' !in p[i]
    ensures var r := p[..|p| - 1] + [p[|p| - 1] + [c]];
            forall i | 0 <= i < |r| :: '.' !in r[i]
  {
    var r := p[..|p| - 1] + [p[|p| - 1] + [c]];
    forall i | 0 <= i < |r| ensures '.' !in r[i] {
      if i < |p| - 1 {
        assert r[i] == p[i];
      } else {
        assert r[i] == p[|p| - 1] + [c];
      }
    }
  }

  /** The pieces of a string without a dot are that string alone. */
  lemma {:induction false} PiecesWithoutDot(s: string)
    requires '.' !in s
    ensures Pieces(s) == [s]
    decreases |s|
  {
    if s != [] {
      assert '.' !in s[..|s| - 1];
      PiecesWithoutDot(s[..|s| - 1]);
      assert s == s[..|s| - 1] + [s[|s| - 1]];
    }
  }

  /** Appending dot-free text extends the last piece. */
  lemma {:induction false} PiecesAppend(a: string, b: string)
    requires '.' !in b
    ensures var pa := Pieces(a);
            Pieces(a + b) == pa[..|pa| - 1] + [pa[|pa| - 1] + b]
    decreases |b|
  {
    var pa := Pieces(a);
    var n := |pa| - 1;
    if b == [] {
      assert a + b == a;
      assert pa[n] + b == pa[n];
      assert pa == pa[..n] + [pa[n]];
    } else {
      var b', c := b[..|b| - 1], b[|b| - 1];
      DotFreeSnoc(a, pa[n], b);
      PiecesAppend(a, b');
      PiecesSnoc(a + b', c);
    }
  }

  /** Splitting the last character off dot-free text. */
  lemma DotFreeSnoc(a: string, x: string, b: string)
    requires '.' !in b && b != []
    ensures var b', c := b[..|b| - 1], b[|b| - 1];
            && '.' !in b' && c != '.'
            && a + b == (a + b') + [c]
            && (x + b') + [c] == x + b
  {
    var b' := b[..|b| - 1];
    forall i | 0 <= i < |b'| ensures b'[i] != '.' { assert b'[i] == b[i]; }
    assert b == b' + [b[|b| - 1]];
  }

  /** One more character either starts a new piece (a dot) or extends the last one. */
  lemma PiecesSnoc(s: string, c: char)
    ensures var p := Pieces(s);
            Pieces(s + [c]) == if c == '.' then p + [[]] else p[..|p| - 1] + [p[|p| - 1] + [c]]
  {
    assert (s + [c])[..|s|] == s;
  }

  /** Splitting a dot-join of dot-free pieces at every dot gives back the pieces. */
  lemma {:induction false} PiecesOfJoin(ps: seq<string>)
    requires ps != []
    requires forall i | 0 <= i < |ps| :: '.' !in ps[i]
    ensures Pieces(Join(".", ps)) == ps
    decreases |ps|
  {
    if |ps| == 1 {
      PiecesWithoutDot(ps[0]);
    } else {
      var init, last := ps[..|ps| - 1], ps[|ps| - 1];
      DotFreeParts(ps);
      PiecesOfJoin(init);
      var j := Join(".", init);
      PiecesDot(j);
      PiecesAppend(j + ".", last);
      NewLastPiece(init, last);
      assert Pieces(Join(".", ps)) == Pieces((j + ".") + last) == init + [last];
    }
  }

  /** The pieces before the last and the last piece of a dot-join, each dot-free. */
  lemma DotFreeParts(ps: seq<string>)
    requires |ps| > 1
    requires forall i | 0 <= i < |ps| :: '.' !in ps[i]
    ensures var init := ps[..|ps| - 1];
            && (forall i | 0 <= i < |init| :: '.' !in init[i])
            && '.' !in ps[|ps| - 1]
            && Join(".", ps) == (Join(".", init) + ".") + ps[|ps| - 1]
            && ps == init + [ps[|ps| - 1]]
  {
  }

  /** A dot ends the last piece and starts an empty one. */
  lemma PiecesDot(s: string)
    ensures Pieces(s + ".") == Pieces(s) + [[]]
  {
    assert (s + ".")[..|s|] == s;
  }

  /** An empty last piece extended by `last` is the list with `last` appended. */
  lemma NewLastPiece(init: seq<string>, last: string)
    ensures (init + [[]])[..|init|] + [[] + last] == init + [last]
  {
    assert (init + [[]])[..|init|] == init;
    assert [] + last == last;
  }

  /** A dot-join of pieces ends with its last piece. */
  lemma JoinEndsWithLast(d: string, ps: seq<string>)
    requires ps != []
    ensures var j, last := Join(d, ps), ps[|ps| - 1];
            |last| <= |j| && j[|j| - |last|..] == last
  {
  }

  /** A dot-join of more than one piece contains a dot. */
  lemma JoinHasDot(ps: seq<string>)
    requires |ps| > 1
    ensures '.' in Join(".", ps)
  {
    var j := Join(".", ps[..|ps| - 1]);
    assert Join(".", ps) == j + "." + ps[|ps| - 1];
    assert Join(".", ps)[|j|] == '.';
  }

  /**
   * `split("\\.")` inverts the dot-join of dot-free pieces whose last piece
   * is not empty, or of a single piece.
   */
  lemma SplitDotsOfJoin(ps: seq<string>)
    requires ps != []
    requires forall i | 0 <= i < |ps| :: '.' !in ps[i]
    requires |ps| == 1 || ps[|ps| - 1] != []
    ensures SplitDots(Join(".", ps)) == ps
  {
    if |ps| > 1 {
      JoinHasDot(ps);
      PiecesOfJoin(ps);
    }
  }

  /** A string that neither starts nor ends with a space is its own trim. */
  lemma TrimUnchanged(s: string)
    requires s != [] && !IsSpace(s[0]) && !IsSpace(s[|s| - 1])
    ensures Trim(s) == s
  {
  }

  /** Drops the empty strings at the end of a list. */
  function DropTrailingEmpty(ps: seq<string>): (r: seq<string>)
    ensures |r| <= |ps|
  {
    if ps == [] || ps[|ps| - 1] != [] then ps
    else DropTrailingEmpty(ps[..|ps| - 1])
  }

  /** What is dropped is empty, and what is kept is a prefix ending in a non-empty string. */
  lemma {:induction false} DropTrailingEmptyKeeps(ps: seq<string>)
    ensures var r := DropTrailingEmpty(ps);
            && r == ps[..|r|]
            && (r == [] || r[|r| - 1] != [])
            && (forall i | |r| <= i < |ps| :: ps[i] == [])
    decreases |ps|
  {
    if ps != [] && ps[|ps| - 1] == [] {
      DropTrailingEmptyKeeps(ps[..|ps| - 1]);
    }
  }

  /**
   * Java's `s.split("\\.")`: the pieces between dots with trailing empty
   * pieces removed, except that a string without a dot splits into itself
   * (so `""` splits into `[""]` while `"."` splits into nothing).
   */
  function SplitDots(s: string): (r: seq<string>)
  {
    if '.' !in s then [s] else DropTrailingEmpty(Pieces(s))
  }

  /**
   * The tokens of a split contain no dot; a string without a dot is its own
   * only token; otherwise the tokens are the pieces between the dots up to
   * the last non-empty one.
   */
  lemma SplitDotsPieces(s: string)
    ensures var r := SplitDots(s);
            && (forall i | 0 <= i < |r| :: '.' !in r[i])
            && ('.' !in s ==> r == [s])
            && ('.' in s ==> r == Pieces(s)[..|r|] && (r == [] || r[|r| - 1] != []))
            && ('.' in s ==> forall i | |r| <= i < |Pieces(s)| :: Pieces(s)[i] == [])
  {
    if '.' in s {
      PiecesJoin(s);
      DropTrailingEmptyKeeps(Pieces(s));
      var r := SplitDots(s);
      assert forall i | 0 <= i < |r| :: r[i] == Pieces(s)[i];
    }
  }

  function DigitChar(d: nat): (c: char)
    requires d < 10
    ensures '0' <= c <= '9'
  {
    (48 + d) as char
  }

  /** The decimal digits of `n`, as `"" + n` renders a non-negative `int`. */
  function Decimal(n: nat): (r: string)
    ensures |r| >= 1
    ensures forall i | 0 <= i < |r| :: '0' <= r[i] <= '9'
    decreases n
  {
    if n < 10 then [DigitChar(n)] else Decimal(n / 10) + [DigitChar(n % 10)]
  }

  /** Reads a string of decimal digits back as a number. */
  function ParseDecimal(s: string): nat
    requires forall i | 0 <= i < |s| :: '0' <= s[i] <= '9'
  {
    if s == [] then 0
    else ParseDecimal(s[..|s| - 1]) * 10 + (s[|s| - 1] as int - 48)
  }

  /** Parsing undoes rendering. */
  lemma {:induction false} ParseDecimalOfDecimal(n: nat)
    ensures ParseDecimal(Decimal(n)) == n
    decreases n
  {
    if n < 10 {
      assert Decimal(n)[..0] == [];
    } else {
      var s := Decimal(n);
      assert s[..|s| - 1] == Decimal(n / 10);
      ParseDecimalOfDecimal(n / 10);
    }
  }

  /** Different numbers render differently. */
  lemma DecimalInjective(m: nat, n: nat)
    requires Decimal(m) == Decimal(n)
    ensures m == n
  {
    ParseDecimalOfDecimal(m);
    ParseDecimalOfDecimal(n);
  }
}
