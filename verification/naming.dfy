/** Entity names and ids derived from a grill's friendly name (entity.py,
    `_get_grill_friendly_name`, `_generate_entity_id_base`,
    `_generate_entity_name`).

    Characters are handled as Python does for ASCII text: `lower()` maps
    A-Z to a-z, and whitespace (`\s`, `strip()`) is the ASCII whitespace
    Python recognises. */
module Naming {
  import opened Optional
  import opened Telemetry

  predicate IsSpace(c: char)
  {
    // space, tab, line feed, vertical tab, form feed, carriage return,
    // and the four information separators (0x1C-0x1F)
    c == ' ' || 9 <= c as int <= 13 || 28 <= c as int <= 31
  }

  predicate IsLowerAlnum(c: char)
  {
    'a' <= c <= 'z' || '0' <= c <= '9'
  }

  function Lower(c: char): char
  {
    if 'A' <= c <= 'Z' then (c as int + 32) as char else c
  }

  /** The last `k` characters of `s`, or all of `s` when it is shorter
      (`s[-k:] if len(s) > k else s`). */
  function Last(s: string, k: nat): (r: string)
    ensures |r| == if |s| < k then |s| else k
    ensures r == s[|s| - |r|..]
  {
    if |s| > k then s[|s| - k..] else s
  }

  // ---------------------------------------------------------------------
  // The cleaning pipeline of `_generate_entity_id_base`

  /** `re.sub(r"[^a-zA-Z0-9\s]", "", name.lower())`. */
  function Keep(s: string): (r: string)
    ensures forall i :: 0 <= i < |r| ==> IsLowerAlnum(r[i]) || IsSpace(r[i])
  {
    if |s| == 0 then []
    else
      var c := Lower(s[0]);
      (if IsLowerAlnum(c) || IsSpace(c) then [c] else []) + Keep(s[1..])
  }

  /** Leading whitespace removed. */
  function StripLeft(s: string): (r: string)
    ensures |r| <= |s| && r == s[|s| - |r|..]
    ensures forall i :: 0 <= i < |s| - |r| ==> IsSpace(s[i])
    ensures |r| > 0 ==> !IsSpace(r[0])
  {
    if |s| > 0 && IsSpace(s[0]) then StripLeft(s[1..]) else s
  }

  /** Trailing whitespace removed. */
  function StripRight(s: string): (r: string)
    ensures |r| <= |s| && r == s[..|r|]
    ensures forall i :: |r| <= i < |s| ==> IsSpace(s[i])
    ensures |r| > 0 ==> !IsSpace(r[|r| - 1])
  {
    if |s| > 0 && IsSpace(s[|s| - 1]) then StripRight(s[..|s| - 1]) else s
  }

  /** Python's `strip()`. */
  function Strip(s: string): (r: string)
    ensures |r| > 0 ==> !IsSpace(r[0]) && !IsSpace(r[|r| - 1])
  {
    StripRight(StripLeft(s))
  }

  /** `re.sub(r"\s+", "_", s)`: each run of whitespace becomes one `_`. */
  function Collapse(s: string): string
    decreases |s|
  {
    if |s| == 0 then []
    else if IsSpace(s[0]) then "_" + Collapse(StripLeft(s))
    else [s[0]] + Collapse(s[1..])
  }

  /** The name's cleaned form before the brand prefix is dropped. */
  function Slugify(name: string): string
  {
    Collapse(Strip(Keep(name)))
  }

  /** Drops a leading "traeger_". */
  function StripBrand(s: string): string
  {
    if |s| >= 8 && s[..8] == "traeger_" then s[8..] else s
  }

  /** `_generate_entity_id_base` for a grill with the given friendly name. */
  function EntityIdBase(friendly: string, id: GrillId): string
  {
    IdBody(friendly) + "_" + Last(id, 4)
  }

  /** The part of the id base in front of the grill-id suffix: the cleaned
      name, or "grill" when nothing is left of it. */
  function IdBody(friendly: string): string
  {
    var clean := StripBrand(Slugify(friendly));
    if |clean| > 0 then clean else "grill"
  }

  // ---------------------------------------------------------------------
  // What the cleaning guarantees

  /** An id body: lower-case letters, digits and single underscores that
      neither start nor end it. */
  predicate IsSlug(s: string)
  {
    && (forall i :: 0 <= i < |s| ==> IsLowerAlnum(s[i]) || s[i] == '_')
    && (|s| > 0 ==> s[0] != '_' && s[|s| - 1] != '_')
    && NoDouble(s)
  }

  /** No two underscores in a row. */
  predicate NoDouble(s: string)
  {
    forall i :: 0 <= i < |s| - 1 ==> !(s[i] == '_' && s[i + 1] == '_')
  }

  lemma NoDoubleCons(c: char, rest: string)
    requires NoDouble(rest)
    requires c == '_' ==> |rest| == 0 || rest[0] != '_'
    ensures NoDouble([c] + rest)
  {
    var r := [c] + rest;
    forall i | 0 <= i < |r| - 1
      ensures !(r[i] == '_' && r[i + 1] == '_')
    {
      if i > 0 {
        assert r[i] == rest[i - 1] && r[i + 1] == rest[i];
      }
    }
  }

  /** The letters and digits of the lower-cased name, in order. */
  function Alnum(s: string): (r: string)
    ensures forall i :: 0 <= i < |r| ==> IsLowerAlnum(r[i])
  {
    if |s| == 0 then []
    else (if IsLowerAlnum(Lower(s[0])) then [Lower(s[0])] else []) + Alnum(s[1..])
  }

  function DropUnderscores(s: string): string
  {
    if |s| == 0 then [] else (if s[0] == '_' then [] else [s[0]]) + DropUnderscores(s[1..])
  }

  function DropSpaces(s: string): string
  {
    if |s| == 0 then [] else (if IsSpace(s[0]) then [] else [s[0]]) + DropSpaces(s[1..])
  }

  lemma {:induction false} DropSpacesAppend(a: string, b: string)
    ensures DropSpaces(a + b) == DropSpaces(a) + DropSpaces(b)
  {
    if |a| == 0 {
      assert a + b == b;
    } else {
      assert (a + b)[0] == a[0];
      assert (a + b)[1..] == a[1..] + b;
      DropSpacesAppend(a[1..], b);
      assert DropSpaces(a + b) == (if IsSpace(a[0]) then [] else [a[0]]) + DropSpaces(a[1..] + b);
    }
  }

  lemma {:induction false} DropSpacesAllSpace(s: string)
    requires forall i :: 0 <= i < |s| ==> IsSpace(s[i])
    ensures DropSpaces(s) == []
  {
    if |s| > 0 {
      DropSpacesAllSpace(s[1..]);
    }
  }

  lemma DropSpacesStrip(s: string)
    ensures DropSpaces(Strip(s)) == DropSpaces(s)
  {
    DropSpacesStripLeft(s);
    DropSpacesStripRight(StripLeft(s));
  }

  lemma DropSpacesStripLeft(s: string)
    ensures DropSpaces(StripLeft(s)) == DropSpaces(s)
  {
    var l := StripLeft(s);
    var pre := s[..|s| - |l|];
    assert s == pre + l;
    DropSpacesAppend(pre, l);
    DropSpacesAllSpace(pre);
  }

  lemma DropSpacesStripRight(l: string)
    ensures DropSpaces(StripRight(l)) == DropSpaces(l)
  {
    var r := StripRight(l);
    var post := l[|r|..];
    assert l == r + post;
    DropSpacesAppend(r, post);
    DropSpacesAllSpace(post);
    assert DropSpaces(r) + [] == DropSpaces(r);
  }

  lemma {:induction false} KeepContent(s: string)
    ensures DropSpaces(Keep(s)) == Alnum(s)
  {
    if |s| > 0 {
      KeepContent(s[1..]);
      var c := Lower(s[0]);
      var head: string := if IsLowerAlnum(c) || IsSpace(c) then [c] else [];
      DropSpacesAppend(head, Keep(s[1..]));
    }
  }

  /** Text made of letters, digits and whitespace only. */
  predicate Cleaned(s: string)
  {
    forall i :: 0 <= i < |s| ==> IsLowerAlnum(s[i]) || IsSpace(s[i])
  }

  /** `Collapse` writes letters, digits and underscores; it is empty only
      for empty text and keeps a leading non-space character in front. */
  lemma {:induction false} CollapseChars(s: string)
    requires Cleaned(s)
    ensures var r := Collapse(s);
      && (forall i :: 0 <= i < |r| ==> IsLowerAlnum(r[i]) || r[i] == '_')
      && (|r| == 0 <==> |s| == 0)
      && (|s| > 0 && !IsSpace(s[0]) ==> r[0] == s[0])
    decreases |s|
  {
    if |s| > 0 {
      var r := Collapse(s);
      if IsSpace(s[0]) {
        var l := StripLeft(s);
        CollapseChars(l);
        assert r == "_" + Collapse(l);
      } else {
        CollapseChars(s[1..]);
        assert r == [s[0]] + Collapse(s[1..]);
      }
    }
  }

  /** `Collapse` never writes two underscores in a row. */
  lemma {:induction false} CollapseNoDouble(s: string)
    requires Cleaned(s)
    ensures NoDouble(Collapse(s))
    decreases |s|
  {
    if |s| > 0 {
      if IsSpace(s[0]) {
        var l := StripLeft(s);
        CollapseNoDouble(l);
        CollapseChars(l);
        var rest := Collapse(l);
        if |rest| > 0 {
          assert l[0] == s[|s| - |l|];
          assert rest[0] == l[0];
        }
        NoDoubleCons('_', rest);
        assert Collapse(s) == "_" + rest;
      } else {
        CollapseNoDouble(s[1..]);
        NoDoubleCons(s[0], Collapse(s[1..]));
      }
    }
  }

  /** `Collapse` keeps the letters and digits and only those. */
  lemma {:induction false} CollapseContent(s: string)
    requires Cleaned(s)
    ensures DropUnderscores(Collapse(s)) == DropSpaces(s)
    decreases |s|
  {
    if |s| > 0 {
      var r := Collapse(s);
      if IsSpace(s[0]) {
        var l := StripLeft(s);
        CollapseContent(l);
        assert r == "_" + Collapse(l);
        assert r[1..] == Collapse(l);
        assert s == s[..|s| - |l|] + l;
        DropSpacesAppend(s[..|s| - |l|], l);
        DropSpacesAllSpace(s[..|s| - |l|]);
      } else {
        CollapseContent(s[1..]);
        assert r == [s[0]] + Collapse(s[1..]);
        assert r[1..] == Collapse(s[1..]);
      }
    }
  }

  /** Every character is whitespace. */
  predicate AllSpace(w: string)
  {
    |w| == 0 || (IsSpace(w[0]) && AllSpace(w[1..]))
  }

  /** A run of whitespace in front of a non-space is stripped entirely. */
  lemma {:induction false} StripLeftRun(w: string, b: string)
    requires AllSpace(w)
    requires |b| > 0 && !IsSpace(b[0])
    ensures StripLeft(w + b) == b
  {
    if |w| > 0 {
      assert (w + b)[1..] == w[1..] + b;
      StripLeftRun(w[1..], b);
    } else {
      assert w + b == b;
    }
  }

  /** Stripping text that ends in a non-space stops inside it. */
  lemma {:induction false} StripLeftAppend(a: string, t: string)
    requires |a| > 0 && !IsSpace(a[|a| - 1])
    ensures StripLeft(a + t) == StripLeft(a) + t
    decreases |a|
  {
    if IsSpace(a[0]) {
      assert (a + t)[1..] == a[1..] + t;
      StripLeftAppend(a[1..], t);
    }
  }

  /** Text without whitespace collapses to itself. */
  lemma {:induction false} CollapseNoSpace(s: string)
    requires forall i :: 0 <= i < |s| ==> !IsSpace(s[i])
    ensures Collapse(s) == s
  {
    if |s| > 0 {
      CollapseNoSpace(s[1..]);
    }
  }

  /** A string that starts with whitespace collapses to `_` and the
      collapsed rest after the run. */
  lemma CollapseSpaceHead(s: string)
    requires |s| > 0 && IsSpace(s[0])
    ensures Collapse(s) == "_" + Collapse(StripLeft(s))
  {
  }

  /** A string that starts with a non-space keeps that character. */
  lemma CollapseCharHead(s: string)
    requires |s| > 0 && !IsSpace(s[0])
    ensures Collapse(s) == [s[0]] + Collapse(s[1..])
  {
  }

  /** `re.sub(r"\s+", "_", ...)` replaces each maximal whitespace run by
      exactly one underscore, in place: a run between text ending in a
      non-space (or nothing) and text starting with a non-space becomes a
      single `_` between their collapsed forms. */
  lemma {:induction false} CollapseRun(a: string, w: string, b: string)
    requires |w| > 0 && AllSpace(w)
    requires |a| == 0 || !IsSpace(a[|a| - 1])
    requires |b| > 0 && !IsSpace(b[0])
    ensures Collapse(a + w + b) == Collapse(a) + "_" + Collapse(b)
    decreases |a|, 1
  {
    if |a| == 0 {
      CollapseRunEmpty(a, w, b);
    } else if IsSpace(a[0]) {
      CollapseRunSpace(a, w, b);
    } else {
      CollapseRunChar(a, w, b);
    }
  }

  lemma CollapseRunEmpty(a: string, w: string, b: string)
    requires |a| == 0 && |w| > 0 && AllSpace(w)
    requires |b| > 0 && !IsSpace(b[0])
    ensures Collapse(a + w + b) == Collapse(a) + "_" + Collapse(b)
  {
    EmptyPrefix(a, w, b);
    CollapseRunLeading(w, b);
    assert Collapse(a) == [];
    EmptyJoin(Collapse(a), Collapse(b));
  }

  lemma EmptyJoin(e: string, y: string)
    requires |e| == 0
    ensures e + "_" + y == "_" + y
  {
    assert e == [];
  }

  lemma {:induction false} CollapseRunSpace(a: string, w: string, b: string)
    requires |w| > 0 && AllSpace(w)
    requires |a| > 0 && IsSpace(a[0]) && !IsSpace(a[|a| - 1])
    requires |b| > 0 && !IsSpace(b[0])
    ensures Collapse(a + w + b) == Collapse(a) + "_" + Collapse(b)
    decreases |a|, 0
  {
    StripLeftKeepsLast(a);
    CollapseRun(StripLeft(a), w, b);
    CollapseRunSpaceStep(a, w, b);
  }

  lemma {:induction false} CollapseRunChar(a: string, w: string, b: string)
    requires |w| > 0 && AllSpace(w)
    requires |a| > 0 && !IsSpace(a[0]) && !IsSpace(a[|a| - 1])
    requires |b| > 0 && !IsSpace(b[0])
    ensures Collapse(a + w + b) == Collapse(a) + "_" + Collapse(b)
    decreases |a|, 0
  {
    var l := a[1..];
    assert |l| == 0 || l[|l| - 1] == a[|a| - 1];
    CollapseRun(l, w, b);
    CollapseRunCharStep(a, w, b);
  }

  /** Stripping text that starts with whitespace and ends in a non-space
      shortens it and keeps its last character. */
  lemma StripLeftKeepsLast(a: string)
    requires |a| > 0 && IsSpace(a[0]) && !IsSpace(a[|a| - 1])
    ensures var l := StripLeft(a); 0 < |l| < |a| && l[|l| - 1] == a[|a| - 1]
  {
  }

  lemma CollapseRunLeading(w: string, b: string)
    requires |w| > 0 && AllSpace(w)
    requires |b| > 0 && !IsSpace(b[0])
    ensures Collapse(w + b) == "_" + Collapse(b)
  {
    CollapseSpaceHead(w + b);
    StripLeftRun(w, b);
  }

  lemma JoinAssoc(p: string, x: string, y: string)
    ensures p + (x + "_" + y) == (p + x) + "_" + y
  {
  }

  /** Stripping `a + w + b` stops inside `a` when `a` ends in a non-space. */
  lemma StripLeftRunTail(a: string, w: string, b: string)
    requires |a| > 0 && !IsSpace(a[|a| - 1])
    ensures StripLeft(a + w + b) == StripLeft(a) + w + b
  {
    var t := w + b;
    StripLeftAppend(a, t);
    AppendAssoc(a, w, b);
    AppendAssoc(StripLeft(a), w, b);
  }

  lemma EmptyPrefix(a: string, w: string, b: string)
    requires |a| == 0
    ensures a + w + b == w + b
  {
    assert a == [];
  }

  lemma AppendAssoc(x: string, y: string, z: string)
    ensures x + y + z == x + (y + z)
  {
  }

  lemma CollapseAfterSpace(a: string, w: string, b: string)
    requires |a| > 0 && IsSpace(a[0]) && !IsSpace(a[|a| - 1])
    ensures Collapse(a + w + b) == "_" + Collapse(StripLeft(a) + w + b)
  {
    StripLeftRunTail(a, w, b);
    CollapseSpaceHead(a + w + b);
  }

  lemma CollapseRunSpaceStep(a: string, w: string, b: string)
    requires |a| > 0 && IsSpace(a[0]) && !IsSpace(a[|a| - 1])
    requires Collapse(StripLeft(a) + w + b) == Collapse(StripLeft(a)) + "_" + Collapse(b)
    ensures Collapse(a + w + b) == Collapse(a) + "_" + Collapse(b)
  {
    CollapseAfterSpace(a, w, b);
    CollapseSpaceHead(a);
    JoinAssoc("_", Collapse(StripLeft(a)), Collapse(b));
  }

  lemma CollapseAfterChar(a: string, w: string, b: string)
    requires |a| > 0 && !IsSpace(a[0])
    ensures Collapse(a + w + b) == [a[0]] + Collapse(a[1..] + w + b)
  {
    assert (a + w + b)[1..] == a[1..] + w + b;
  }

  lemma CollapseRunCharStep(a: string, w: string, b: string)
    requires |a| > 0 && !IsSpace(a[0])
    requires Collapse(a[1..] + w + b) == Collapse(a[1..]) + "_" + Collapse(b)
    ensures Collapse(a + w + b) == Collapse(a) + "_" + Collapse(b)
  {
    CollapseAfterChar(a, w, b);
    CollapseCharHead(a);
    JoinAssoc([a[0]], Collapse(a[1..]), Collapse(b));
  }

  /** Two words separated by a whitespace run collapse to the words joined
      by one underscore. */
  lemma CollapseTwoWords(a: string, w: string, b: string)
    requires forall i :: 0 <= i < |a| ==> !IsSpace(a[i])
    requires forall i :: 0 <= i < |b| ==> !IsSpace(b[i])
    requires |w| > 0 && AllSpace(w) && |b| > 0
    ensures Collapse(a + w + b) == a + "_" + b
  {
    CollapseRun(a, w, b);
    CollapseNoSpace(a);
    CollapseNoSpace(b);
  }

  lemma CollapseExample()
    ensures Collapse("my  grill") == "my_grill"
  {
    var a, w, b := "my", "  ", "grill";
    CollapseTwoWords(a, w, b);
    assert a + w + b == "my  grill";
    assert a + "_" + b == "my_grill";
  }

  /** Letters and digits in either case. */
  predicate Word(x: string)
  {
    forall i :: 0 <= i < |x| ==> IsLowerAlnum(Lower(x[i]))
  }

  /** Two words with a whitespace run between them clean to the words'
      lower-cased letters and digits joined by one underscore: "My  Grill"
      becomes "my_grill". */
  lemma SlugifyTwoWords(x: string, w: string, y: string)
    requires |x| > 0 && Word(x) && |y| > 0 && Word(y)
    requires |w| > 0 && AllSpace(w)
    ensures Slugify(x + w + y) == Alnum(x) + "_" + Alnum(y)
  {
    var ax, ay := Alnum(x), Alnum(y);
    KeepWord(x);
    KeepWord(y);
    KeepSpaces(w);
    KeepAppend3(x, w, y);
    StripUnchanged(ax + w + ay);
    AlnumNoSpace(ax);
    AlnumNoSpace(ay);
    CollapseTwoWords(ax, w, ay);
  }

  lemma KeepAppend3(x: string, w: string, y: string)
    ensures Keep(x + w + y) == Keep(x) + Keep(w) + Keep(y)
  {
    KeepAppend(x + w, y);
    KeepAppend(x, w);
  }

  lemma AlnumNoSpace(a: string)
    requires forall i :: 0 <= i < |a| ==> IsLowerAlnum(a[i])
    ensures forall i :: 0 <= i < |a| ==> !IsSpace(a[i])
  {
  }

  /** Text that neither starts nor ends with whitespace is not changed by
      `strip()`. */
  lemma StripUnchanged(s: string)
    requires |s| > 0 && !IsSpace(s[0]) && !IsSpace(s[|s| - 1])
    ensures Strip(s) == s
  {
    assert StripLeft(s) == s;
  }

  /** A word keeps exactly its lower-cased letters and digits, all of them. */
  lemma {:induction false} KeepWord(x: string)
    requires Word(x)
    ensures Keep(x) == Alnum(x) && |Alnum(x)| == |x|
  {
    if |x| > 0 {
      assert Word(x[1..]) by {
        forall i | 0 <= i < |x| - 1
          ensures IsLowerAlnum(Lower(x[1..][i]))
        {
          assert x[1..][i] == x[i + 1];
        }
      }
      KeepWord(x[1..]);
    }
  }

  /** Whitespace is kept as it is. */
  lemma {:induction false} KeepSpaces(w: string)
    requires AllSpace(w)
    ensures Keep(w) == w
  {
    if |w| > 0 {
      KeepSpaces(w[1..]);
    }
  }

  /** `Keep` works character by character. */
  lemma {:induction false} KeepAppend(x: string, y: string)
    ensures Keep(x + y) == Keep(x) + Keep(y)
  {
    if |x| > 0 {
      assert (x + y)[1..] == x[1..] + y;
      KeepAppend(x[1..], y);
    } else {
      assert x + y == y;
    }
  }

  /** Text that does not end in whitespace collapses to text that does not
      end in an underscore. */
  lemma {:induction false} CollapseLast(s: string)
    requires Cleaned(s)
    requires |s| > 0 && !IsSpace(s[|s| - 1])
    ensures |Collapse(s)| > 0 && Collapse(s)[|Collapse(s)| - 1] == s[|s| - 1]
    decreases |s|, 1
  {
    if IsSpace(s[0]) {
      CollapseLastSpace(s);
    } else {
      CollapseLastChar(s);
    }
  }

  lemma {:induction false} CollapseLastSpace(s: string)
    requires Cleaned(s)
    requires |s| > 0 && IsSpace(s[0]) && !IsSpace(s[|s| - 1])
    ensures |Collapse(s)| > 0 && Collapse(s)[|Collapse(s)| - 1] == s[|s| - 1]
    decreases |s|, 0
  {
    var l := StripLeft(s);
    StripLeftKeepsLast(s);
    StripLeftCleaned(s);
    CollapseLast(l);
    CollapseSpaceHead(s);
    LastOfJoin("_", Collapse(l));
  }

  lemma {:induction false} CollapseLastChar(s: string)
    requires Cleaned(s)
    requires |s| > 0 && !IsSpace(s[0]) && !IsSpace(s[|s| - 1])
    ensures |Collapse(s)| > 0 && Collapse(s)[|Collapse(s)| - 1] == s[|s| - 1]
    decreases |s|, 0
  {
    CollapseCharHead(s);
    if |s| == 1 {
      assert Collapse(s[1..]) == [];
    } else {
      var t := s[1..];
      assert t[|t| - 1] == s[|s| - 1];
      assert Cleaned(t) by {
        CleanedSlice(s, 1, |s|);
      }
      CollapseLast(t);
      LastOfJoin([s[0]], Collapse(t));
    }
  }

  lemma StripLeftCleaned(s: string)
    requires Cleaned(s)
    ensures Cleaned(StripLeft(s))
  {
    var l := StripLeft(s);
    CleanedSlice(s, |s| - |l|, |s|);
  }

  lemma LastOfJoin(p: string, x: string)
    requires |x| > 0
    ensures |p + x| > 0 && (p + x)[|p + x| - 1] == x[|x| - 1]
  {
  }

  lemma {:induction false} DropUnderscoresAlnum(s: string)
    requires forall i :: 0 <= i < |s| ==> IsLowerAlnum(s[i])
    ensures DropUnderscores(s) == s
  {
    if |s| > 0 {
      DropUnderscoresAlnum(s[1..]);
    }
  }

  /** The cleaned name is a slug whose letters and digits are exactly those
      of the name, in order; it is empty exactly when the name has none. */
  lemma SlugifySpec(name: string)
    ensures IsSlug(Slugify(name))
    ensures DropUnderscores(Slugify(name)) == Alnum(name)
    ensures |Slugify(name)| == 0 <==> |Alnum(name)| == 0
  {
    var t := Strip(Keep(name));
    StripCleaned(Keep(name));
    CollapseIsSlug(t);
    SlugifyContent(name);
    StrippedBlank(t);
  }

  /** Stripped text is empty exactly when it has no non-space character. */
  lemma StrippedBlank(t: string)
    requires |t| > 0 ==> !IsSpace(t[0])
    ensures |DropSpaces(t)| == 0 <==> |t| == 0
  {
    if |t| > 0 {
      assert DropSpaces(t) == [t[0]] + DropSpaces(t[1..]);
    }
  }

  /** The letters and digits survive stripping and collapsing. */
  lemma SlugifyContent(name: string)
    ensures DropSpaces(Strip(Keep(name))) == Alnum(name)
    ensures DropUnderscores(Slugify(name)) == Alnum(name)
  {
    var k := Keep(name);
    var t := Strip(k);
    StripCleaned(k);
    CollapseContent(t);
    DropSpacesStrip(k);
    KeepContent(name);
  }

  /** Stripped text collapses to a slug. */
  lemma CollapseIsSlug(t: string)
    requires Cleaned(t)
    requires |t| > 0 ==> !IsSpace(t[0]) && !IsSpace(t[|t| - 1])
    ensures IsSlug(Collapse(t))
    ensures |Collapse(t)| == 0 <==> |t| == 0
  {
    CollapseChars(t);
    CollapseNoDouble(t);
    if |t| > 0 {
      CollapseLast(t);
    }
  }

  lemma StripCleaned(s: string)
    requires Cleaned(s)
    ensures Cleaned(Strip(s))
  {
    var l := StripLeft(s);
    CleanedSlice(s, |s| - |l|, |s|);
    var t := StripRight(l);
    CleanedSlice(l, 0, |t|);
  }

  lemma CleanedSlice(s: string, i: nat, j: nat)
    requires Cleaned(s) && i <= j <= |s|
    ensures Cleaned(s[i..j])
  {
    var t := s[i..j];
    forall k | 0 <= k < |t|
      ensures IsLowerAlnum(t[k]) || IsSpace(t[k])
    {
      assert t[k] == s[i + k];
    }
  }

  /** Dropping the brand prefix keeps a slug a slug. */
  lemma StripBrandSlug(s: string)
    requires IsSlug(s)
    ensures IsSlug(StripBrand(s))
  {
    if |s| >= 8 && s[..8] == "traeger_" {
      var r := s[8..];
      assert s[7] == '_';
      if |r| > 0 {
        assert r[0] == s[8];
        assert !(s[7] == '_' && s[8] == '_');
      }
      forall i | 0 <= i < |r| - 1
        ensures !(r[i] == '_' && r[i + 1] == '_')
      {
        assert r[i] == s[i + 8] && r[i + 1] == s[i + 9];
      }
    }
  }

  /** The id base is a non-empty slug, `_`, and the grill id's last
      four characters (or the whole id when it is shorter). */
  lemma EntityIdBaseSpec(friendly: string, id: GrillId)
    ensures var r := EntityIdBase(friendly, id);
      var n := |r| - |Last(id, 4)| - 1;
      && 0 < n && r[n] == '_' && IsSlug(r[..n]) && r[n + 1..] == Last(id, 4)
  {
    var body := IdBody(friendly);
    IdBodySpec(friendly);
    SplitAtUnderscore(body, Last(id, 4));
  }

  lemma SplitAtUnderscore(body: string, suffix: string)
    ensures var r := body + "_" + suffix;
      && r[..|body|] == body && r[|body|] == '_' && r[|body| + 1..] == suffix
  {
  }

  /** The body is a non-empty slug, and it is "grill" when the friendly
      name holds no letter or digit. */
  lemma IdBodySpec(friendly: string)
    ensures IsSlug(IdBody(friendly)) && |IdBody(friendly)| > 0
    ensures |Alnum(friendly)| == 0 ==> IdBody(friendly) == "grill"
  {
    var slug := Slugify(friendly);
    SlugifySpec(friendly);
    StripBrandSlug(slug);
    if |StripBrand(slug)| == 0 {
      GrillIsSlug();
    }
  }

  lemma GrillIsSlug()
    ensures IsSlug("grill")
  {
  }

  // ---------------------------------------------------------------------
  // Friendly name and entity name

  /** `_get_grill_friendly_name`: the stripped friendly name when the
      details carry a non-blank one, else "Traeger " and the last eight
      characters of the grill id. */
  function FriendlyName(details: Option<Details>, id: GrillId): (r: string)
    ensures details.Some? && details.value.friendlyName.Some? && |Strip(details.value.friendlyName.value)| > 0
            ==> r == Strip(details.value.friendlyName.value)
    ensures !(details.Some? && details.value.friendlyName.Some? && |Strip(details.value.friendlyName.value)| > 0)
            ==> r == "Traeger " + Last(id, 8)
    ensures |r| > 0 && !IsSpace(r[0])
  {
    if details.Some? && details.value.friendlyName.Some? && |Strip(details.value.friendlyName.value)| > 0
    then Strip(details.value.friendlyName.value)
    else "Traeger " + Last(id, 8)
  }

  /** `base_name.lower().replace(" ", "_")`. */
  function Underscored(s: string): (r: string)
    ensures |r| == |s|
    ensures forall i :: 0 <= i < |s| ==> r[i] == if Lower(s[i]) == ' ' then '_' else Lower(s[i])
  {
    if |s| == 0 then []
    else [if Lower(s[0]) == ' ' then '_' else Lower(s[0])] + Underscored(s[1..])
  }

  /** `_generate_entity_name`: the grill id's last four characters, `_`,
      and the base name lower-cased with spaces turned into underscores. */
  function EntityName(id: GrillId, baseName: string): (r: string)
    ensures |r| == |Last(id, 4)| + 1 + |baseName|
    ensures r[..|Last(id, 4)|] == Last(id, 4) && r[|Last(id, 4)|] == '_'
    ensures r[|Last(id, 4)| + 1..] == Underscored(baseName)
    ensures forall i :: |Last(id, 4)| < i < |r| ==> r[i] != ' '
  {
    Last(id, 4) + "_" + Underscored(baseName)
  }
}
