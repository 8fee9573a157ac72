/** When the migrated module grants of a row come in the same order as the normalised ones. */
module AccessOrder {
  import opened AccessModules

  /** The names of `s` that `seen` lacks, each where it first occurs. */
  function News(seen: Names, s: Names): Names {
    if s == [] then []
    else
      var init, last := News(seen, s[..|s| - 1]), s[|s| - 1];
      if last in seen || last in init then init else init + [last]
  }

  lemma {:induction false} NewsElements(seen: Names, s: Names, x: string)
    ensures x in News(seen, s) <==> x in s && x !in seen
    decreases |s|
  {
    if s != [] {
      NewsElements(seen, s[..|s| - 1], x);
      assert s == s[..|s| - 1] + [s[|s| - 1]];
    }
  }

  lemma {:induction false} NewsDistinct(seen: Names, s: Names)
    ensures NoRepeats(News(seen, s))
    decreases |s|
  {
    if s != [] { NewsDistinct(seen, s[..|s| - 1]); }
  }

  lemma {:induction false} FirstsSplit(a: Names, b: Names)
    ensures Firsts(a + b) == Firsts(a) + News(a, b)
    decreases |b|
  {
    if b == [] {
      assert a + b == a && Firsts(a) + News(a, b) == Firsts(a);
    } else {
      var init, last := b[..|b| - 1], b[|b| - 1];
      FirstsSplit(a, init);
      assert a + b == (a + init) + [last];
      FirstsSnoc(a + init, last);
      FirstsAreFirst(a);
      NewsElements(a, init, last);
    }
  }

  function Minus(s: Names, out: Names): Names {
    if s == [] then [] else Minus(s[..|s| - 1], out) + (if s[|s| - 1] in out then [] else [s[|s| - 1]])
  }

  lemma {:induction false} NewsBeyond(a: Names, b: Names, s: Names)
    ensures News(a + b, s) == Minus(News(a, s), b)
    decreases |s|
  {
    if s != [] {
      var init, last := s[..|s| - 1], s[|s| - 1];
      NewsBeyond(a, b, init);
      NewsElements(a, init, last);
      NewsElements(a + b, init, last);
      assert (News(a, init) + [last])[..|News(a, init)|] == News(a, init);
    }
  }

  lemma MinusSnoc(s: Names, x: string, out: Names)
    ensures Minus(s + [x], out) == Minus(s, out) + (if x in out then [] else [x])
  {
    assert (s + [x])[..|s|] == s;
  }

  lemma {:induction false} MinusAll(s: Names, out: Names)
    requires forall x :: x in s ==> x in out
    ensures Minus(s, out) == []
    decreases |s|
  {
    if s != [] {
      assert s[|s| - 1] in s && forall x :: x in s[..|s| - 1] ==> x in s;
      MinusAll(s[..|s| - 1], out);
    }
  }

  lemma {:induction false} MinusKnown(s: Names, rest: Names, out: Names)
    requires (forall x :: x in s ==> x in out) && (forall x :: x in rest ==> x !in out)
    ensures Minus(s + rest, out) == rest
    decreases |rest|
  {
    if rest == [] {
      MinusAll(s, out);
      assert s + rest == s;
    } else {
      hide Minus;
      var init, last := rest[..|rest| - 1], rest[|rest| - 1];
      assert last in rest && forall x :: x in init ==> x in rest;
      MinusKnown(s, init, out);
      MinusSnoc(s + init, last, out);
      assert s + rest == (s + init) + [last] && rest == init + [last];
    }
  }

  lemma PrefixLeaves(pre: Names, a: Names, b: Names)
    requires News(pre, a) <= News(pre, b)
    ensures Minus(News(pre, b), a) == News(pre, b)[|News(pre, a)|..] && Minus(News(pre, a), b) == []
  {
    hide News, Minus;
    var m, l := News(pre, a), News(pre, b);
    var rest := l[|m|..];
    assert l == m + rest;
    forall x | x in m ensures x in a && x in b {
      assert x in l;
      NewsElements(pre, a, x);
      NewsElements(pre, b, x);
    }
    NewsDistinct(pre, b);
    forall x | x in rest ensures x !in a {
      RestIsNew(m, rest, x);
      NewsElements(pre, a, x);
      NewsElements(pre, b, x);
    }
    MinusKnown(m, rest, a);
    MinusAll(m, b);
  }

  /** If what `a` adds to `pre` begins what `b` adds, the order of the two does not matter. */
  lemma PrefixAgrees(pre: Names, a: Names, b: Names)
    requires News(pre, a) <= News(pre, b)
    ensures Firsts(pre + a + b) == Firsts(pre + b + a)
  {
    hide Firsts, News, Minus;
    var m, l, head := News(pre, a), News(pre, b), Firsts(pre);
    PrefixLeaves(pre, a, b);
    FirstsInTwo(pre, a, b);
    FirstsInTwo(pre, b, a);
    assert l == m + l[|m|..];
    assert head + m + l[|m|..] == head + l + [];
  }

  lemma RestIsNew(m: Names, rest: Names, x: string)
    requires NoRepeats(m + rest) && x in rest
    ensures x !in m && x in m + rest
  {
    var j :| 0 <= j < |rest| && rest[j] == x;
    assert (m + rest)[|m| + j] == x;
    assert forall i :: 0 <= i < |m| ==> m[i] == (m + rest)[i];
  }

  lemma FirstsInTwo(pre: Names, a: Names, b: Names)
    ensures Firsts(pre + a + b) == Firsts(pre) + News(pre, a) + Minus(News(pre, b), a)
  {
    FirstsSplit(pre, a);
    FirstsSplit(pre + a, b);
    NewsBeyond(pre, a, b);
  }

  lemma SwapAgreesExactly(pre: Names, a: Names, b: Names)
    ensures Firsts(pre + a + b) == Firsts(pre + b + a) <==> News(pre, a) <= News(pre, b) || News(pre, b) <= News(pre, a)
  {
    var m, l, head := News(pre, a), News(pre, b), Firsts(pre);
    if m <= l { PrefixAgrees(pre, a, b); }
    if l <= m { PrefixAgrees(pre, b, a); }
    if Firsts(pre + a + b) == Firsts(pre + b + a) {
      FirstsInTwo(pre, a, b);
      FirstsInTwo(pre, b, a);
      CommonStart(head, m, Minus(l, a), l, Minus(m, b));
    }
  }

  lemma CommonStart(head: Names, m: Names, x: Names, l: Names, y: Names)
    requires head + m + x == head + l + y
    ensures m <= l || l <= m
  {
    assert m + x == (head + m + x)[|head|..] && l + y == (head + l + y)[|head|..];
    assert m + x == l + y;
    if |m| <= |l| {
      assert m == (m + x)[..|m|] == (l + y)[..|m|] == l[..|m|];
    } else {
      assert l == (l + y)[..|l|] == (m + x)[..|l|] == m[..|l|];
    }
  }

  lemma {:induction false} WithoutConcat(a: Names, b: Names, name: string)
    ensures Without(a + b, name) == Without(a, name) + Without(b, name)
    decreases |b|
  {
    if b == [] {
      assert a + b == a && Without(a, name) + Without(b, name) == Without(a, name);
    } else {
      assert (a + b)[..|a + b| - 1] == a + b[..|b| - 1];
      WithoutConcat(a, b[..|b| - 1], name);
    }
  }

  lemma {:induction false} WithoutAbsent(s: Names, name: string)
    requires name !in s
    ensures Without(s, name) == s
    decreases |s|
  {
    if s != [] {
      WithoutAbsent(s[..|s| - 1], name);
      assert s == s[..|s| - 1] + [s[|s| - 1]];
    }
  }

  /** After both halves have been seen, a legacy grant expands to nothing new. */
  lemma {:induction false} ExpandedNews(seen: Names, s: Names)
    requires ROC in seen && SECRETARIAL in seen
    ensures News(seen, Expanded(s)) == News(seen, Without(s, LEGACY))
    decreases |s|
  {
    if s != [] {
      var init, last := s[..|s| - 1], s[|s| - 1];
      ExpandedNews(seen, init);
      var e := Expanded(init);
      if last == LEGACY {
        assert (e + [ROC, SECRETARIAL])[..|e| + 1] == e + [ROC] && (e + [ROC])[..|e|] == e;
        assert Without(s, LEGACY) == Without(init, LEGACY);
      } else {
        assert (e + [last])[..|e|] == e;
        assert (Without(init, LEGACY) + [last])[..|Without(init, LEGACY)|] == Without(init, LEGACY);
        NewsElements(seen, e, last);
        NewsElements(seen, Without(init, LEGACY), last);
      }
    }
  }

  /** What stands before the first legacy grant of a row, and what stands after it without it. */
  function Before(s: Names): Names
    requires LEGACY in s
  {
    s[..Position(s, LEGACY)]
  }

  function After(s: Names): Names
    requires LEGACY in s
  {
    Without(s[Position(s, LEGACY) + 1..], LEGACY)
  }

  lemma BothOrders(s: Names)
    requires LEGACY in s
    ensures Normalized(s) == Firsts(Before(s) + [ROC, SECRETARIAL] + After(s))
    ensures Upgraded(s) == Firsts(Before(s) + After(s) + [ROC, SECRETARIAL])
  {
    var pre, k := Before(s), Position(s, LEGACY);
    var post, halves := s[k + 1..], [ROC, SECRETARIAL];
    assert s == (pre + [LEGACY]) + post;
    ExpandedConcat(pre + [LEGACY], post);
    ExpandedConcat(pre, [LEGACY]);
    ExpandedCanonical(pre);
    assert Expanded([LEGACY]) == halves;
    ExpandedNews(pre + halves, post);
    FirstsSplit(pre + halves, Expanded(post));
    FirstsSplit(pre + halves, After(s));
    WithoutConcat(pre + [LEGACY], post, LEGACY);
    WithoutConcat(pre, [LEGACY], LEGACY);
    WithoutAbsent(pre, LEGACY);
    assert Without([LEGACY], LEGACY) == [];
    assert pre + [] == pre;
  }

  /** Main theorem: the SQL appends the two halves, the loop expands in place. They store the same
      list exactly when the row had no repeats and no legacy grant, or when of the halves not listed
      before the legacy grant and the new names listed after it the one sequence begins the other. */
  lemma UpgradeKeepsOrderExactly(s: Names)
    ensures Upgraded(s) == Normalized(s) <==>
            if LEGACY !in s then NoRepeats(s)
            else
              var (halves, others) := (News(Before(s), [ROC, SECRETARIAL]), News(Before(s), After(s)));
              halves <= others || others <= halves
  {
    if LEGACY in s {
      BothOrders(s);
      SwapAgreesExactly(Before(s), [ROC, SECRETARIAL], After(s));
    } else {
      ExpandedCanonical(s);
      FirstsAreFirst(s);
      if NoRepeats(s) { FirstsOfDistinct(s); }
    }
  }
}
