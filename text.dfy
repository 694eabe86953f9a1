/** The string primitives the service relies on: lower-casing, substring containment
    and the code-point order in which strings are sorted. */
module Text {

  /** Lower-cases one character. Covers the ASCII capitals and the Latin-1 capitals
      U+00C0..U+00DE (except the multiplication sign U+00D7), which include the accented
      vowels and the ñ of the keyword table; every other character is kept. */
  function LowerChar(c: char): (r: char)
    ensures 'A' <= c <= 'Z' ==> 'a' <= r <= 'z'
    ensures !('A' <= c <= 'Z') && !('À' <= c <= 'Þ' && c != '×') ==> r == c
  {
    if 'A' <= c <= 'Z' then (c as int + 32) as char
    else if 'À' <= c <= 'Þ' && c != '×' then (c as int + 32) as char
    else c
  }

  /** The capitals `LowerChar` maps, and their lower-case letters, position by position. */
  const AsciiCapitals := "ABCDEFGHIJKLMNOPQRSTUVWXYZ"
  const AsciiSmall := "abcdefghijklmnopqrstuvwxyz"
  const Latin1Capitals := "ÀÁÂÃÄÅÆÇÈÉÊËÌÍÎÏÐÑÒÓÔÕÖØÙÚÛÜÝÞ"
  const Latin1Small := "àáâãäåæçèéêëìíîïðñòóôõöøùúûüýþ"

  /** Each ASCII capital becomes the small letter at the same position of the alphabet,
      as Python's `lower()` does. */
  lemma LowerCharAscii(k: nat)
    requires k < |AsciiCapitals|
    ensures LowerChar(AsciiCapitals[k]) == AsciiSmall[k]
  {
  }

  /** Each Latin-1 capital becomes its small letter, as Python's `lower()` does; these
      include the accented vowels and the ñ of the keyword table. */
  lemma LowerCharLatin1(k: nat)
    requires k < |Latin1Capitals|
    ensures LowerChar(Latin1Capitals[k]) == Latin1Small[k]
    ensures LowerChar('Á') == 'á' && LowerChar('É') == 'é' && LowerChar('Í') == 'í'
    ensures LowerChar('Ó') == 'ó' && LowerChar('Ú') == 'ú' && LowerChar('Ñ') == 'ñ'
  {
  }

  /** `s.lower()`, character by character. */
  function Lower(s: string): (r: string)
    ensures |r| == |s|
  {
    seq(|s|, i requires 0 <= i < |s| => LowerChar(s[i]))
  }

  /** `w` occurs in `s` starting at position `i`. */
  ghost predicate OccursAt(s: string, w: string, i: int)
  {
    0 <= i && i + |w| <= |s| && s[i..i + |w|] == w
  }

  /** Python's `w in s`: `w` is a substring of `s`. */
  function Contains(s: string, w: string): (r: bool)
    ensures r <==> exists i :: OccursAt(s, w, i)
    decreases |s|
  {
    if |w| > |s| then
      false
    else if s[..|w|] == w then
      assert OccursAt(s, w, 0);
      true
    else
      OccursShift(s, w);
      assert !OccursAt(s, w, 0);
      Contains(s[1..], w)
  }

  /** Occurrences in `s[1..]` are the occurrences in `s` past position 0, shifted by one. */
  lemma {:induction false} OccursShift(s: string, w: string)
    requires s != []
    ensures (exists i :: OccursAt(s[1..], w, i)) <==> (exists i :: i > 0 && OccursAt(s, w, i))
  {
    if i :| OccursAt(s[1..], w, i) {
      assert s[1..][i..i + |w|] == s[i + 1..i + 1 + |w|];
      assert OccursAt(s, w, i + 1);
    }
    if i :| i > 0 && OccursAt(s, w, i) {
      assert s[1..][i - 1..i - 1 + |w|] == s[i..i + |w|];
      assert OccursAt(s[1..], w, i - 1);
    }
  }

  /** Python's `w in s` for at least one `w` of `ws`. */
  function ContainsAny(s: string, ws: seq<string>): (r: bool)
    ensures r <==> exists j :: 0 <= j < |ws| && Contains(s, ws[j])
  {
    if ws == [] then false
    else Contains(s, ws[0]) || ContainsAny(s, ws[1..])
  }

  /** Python's `a < b` on strings: lexicographic in code-point order, a proper prefix first. */
  predicate Less(a: string, b: string)
  {
    if a == [] then b != []
    else if b == [] then false
    else a[0] < b[0] || (a[0] == b[0] && Less(a[1..], b[1..]))
  }

  /** Strictly ascending, hence without duplicates. */
  ghost predicate StrictlySorted(xs: seq<string>)
  {
    forall i, j :: 0 <= i < j < |xs| ==> Less(xs[i], xs[j])
  }

  lemma {:induction false} LowerCharIdempotent(c: char)
    ensures LowerChar(LowerChar(c)) == LowerChar(c)
  {
  }

  /** Lower-casing twice changes nothing more than lower-casing once. */
  lemma {:induction false} LowerIdempotent(s: string)
    ensures Lower(Lower(s)) == Lower(s)
  {
    forall i | 0 <= i < |s| ensures Lower(Lower(s))[i] == Lower(s)[i] {
      LowerCharIdempotent(s[i]);
    }
  }

  /** The empty string is a substring of every string; a non-empty one is not a substring of "". */
  lemma {:induction false} ContainsEmpty(s: string, w: string)
    ensures Contains(s, "")
    ensures w != [] ==> !Contains("", w)
  {
    assert OccursAt(s, "", 0);
  }

  lemma {:induction false} LessIrreflexive(a: string)
    ensures !Less(a, a)
    decreases |a|
  {
    if a != [] { LessIrreflexive(a[1..]); }
  }

  lemma {:induction false} LessTransitive(a: string, b: string, c: string)
    requires Less(a, b) && Less(b, c)
    ensures Less(a, c)
    decreases |a|
  {
    if a != [] && b != [] && c != [] && a[0] == b[0] == c[0] {
      LessTransitive(a[1..], b[1..], c[1..]);
    }
  }

  /** Any two distinct strings are ordered one way or the other. */
  lemma {:induction false} LessTotal(a: string, b: string)
    requires a != b
    ensures Less(a, b) || Less(b, a)
    decreases |a|
  {
    if a != [] && b != [] && a[0] == b[0] {
      assert a == [a[0]] + a[1..] && b == [b[0]] + b[1..];
      LessTotal(a[1..], b[1..]);
    }
  }

  /** The first element of a non-empty list is one of its members. Stated as an
      implication so that it can be used where the list is not known to be non-empty. */
  lemma HeadIsMember(xs: seq<string>)
    ensures xs != [] ==> xs[0] in xs
  {
  }

  /** Python's `sorted` on a set is unique: two strictly sorted lists with the same
      elements are the same list. */
  lemma {:induction false} StrictlySortedUnique(xs: seq<string>, ys: seq<string>)
    requires StrictlySorted(xs) && StrictlySorted(ys)
    requires forall c :: c in xs <==> c in ys
    ensures xs == ys
    decreases |xs|
  {
    if xs != [] && ys != [] {
      if xs[0] != ys[0] {
        // each head occurs later in the other list, so each is below the other
        assert xs[0] in ys && ys[0] in xs;
        var m :| 0 <= m < |ys| && ys[m] == xs[0];
        var k :| 0 <= k < |xs| && xs[k] == ys[0];
        LessIrreflexive(xs[0]);
        LessTransitive(xs[0], ys[0], xs[0]);
        assert false;
      }
      forall c ensures c in xs[1..] <==> c in ys[1..] {
        LessIrreflexive(c);
        if c in xs[1..] {
          assert c in ys;
          var m :| 0 <= m < |ys| && ys[m] == c;
          assert m != 0;
        }
        if c in ys[1..] {
          assert c in xs;
          var m :| 0 <= m < |xs| && xs[m] == c;
          assert m != 0;
        }
      }
      StrictlySortedUnique(xs[1..], ys[1..]);
    } else {
      HeadIsMember(xs);
      HeadIsMember(ys);
    }
  }
}
