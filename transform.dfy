/**
 * Reading the overlay's drag offset back out of its CSS `transform` string
 * at export time: the first capture of `translateX\((.*?)px\)` (and of its
 * `translateY` twin) is read with `parseFloat`, a missing or unreadable
 * component counts as 0, and a transform that mentions `none` counts as no
 * offset at all.
 */
module Transform {
  import opened Wrappers
  import opened NumberParse

  /** An offset in CSS pixels from the overlay's initial top-left anchor. */
  datatype Point = Point(x: real, y: real)

  const Origin: Point := Point(0.0, 0.0)

  /** The characters a regular expression's `.` does not match. */
  predicate IsLineTerminator(c: char) {
    c == '\n' || c == '\r' || c == '\U{2028}' || c == '\U{2029}'
  }

  /** `p` occurs in `s` starting at position `i`. */
  predicate OccursAt(s: string, p: string, i: int) {
    0 <= i && i + |p| <= |s| && s[i..i + |p|] == p
  }

  /** `s.includes(p)`. */
  predicate Includes(s: string, p: string) {
    exists i | 0 <= i <= |s| - |p| :: OccursAt(s, p, i)
  }

  /** No character of `s` is `c`. */
  predicate Lacks(s: string, c: char) {
    forall i :: 0 <= i < |s| ==> s[i] != c
  }

  /** The text a lazy `(.*?)` may capture before `px)`: no `)` and no line terminator. */
  predicate Capturable(u: string) {
    forall i :: 0 <= i < |u| ==> u[i] != ')' && !IsLineTerminator(u[i])
  }

  /**
   * Where the lazy group `(.*?)` started at `k` ends when followed by `px\)`:
   * the first `px)` at or after `k` that no line terminator precedes.
   */
  function CaptureEnd(s: string, k: nat): (r: Option<nat>)
    ensures r.Some? ==> k <= r.value && OccursAt(s, "px)", r.value)
    ensures r.Some? ==> forall j :: k <= j < r.value ==> !IsLineTerminator(s[j]) && !OccursAt(s, "px)", j)
    ensures r.None? ==>
              forall j :: k <= j <= |s| && (forall m :: k <= m < j ==> !IsLineTerminator(s[m])) ==> !OccursAt(s, "px)", j)
    decreases |s| - k
  {
    if OccursAt(s, "px)", k) then Some(k)
    else if k >= |s| || IsLineTerminator(s[k]) then None
    else CaptureEnd(s, k + 1)
  }

  /** The first group of the leftmost match of `open(.*?)px\)` that starts at or after `i`. */
  function MatchFrom(s: string, open: string, i: nat): (r: Option<string>)
    ensures r.Some? ==> forall c :: c in r.value ==> !IsLineTerminator(c)
    ensures r.None? ==> forall p :: i <= p && OccursAt(s, open, p) ==> CaptureEnd(s, p + |open|).None?
    decreases |s| - i
  {
    if i + |open| > |s| then None
    else if s[i..i + |open|] == open then
      match CaptureEnd(s, i + |open|)
      case Some(j) => Some(s[i + |open|..j])
      case None => MatchFrom(s, open, i + 1)
    else MatchFrom(s, open, i + 1)
  }

  /** `s.match(/name\((.*?)px\)/)?.[1]`. */
  function Match(s: string, name: string): (r: Option<string>)
    ensures r.Some? ==> forall c :: c in r.value ==> !IsLineTerminator(c)
    ensures r.None? ==> forall p :: OccursAt(s, name + "(", p) ==> CaptureEnd(s, p + |name| + 1).None?
  {
    MatchFrom(s, name + "(", 0)
  }

  /** One axis of the offset: its captured text read by `parseFloat`, 0 when absent or NaN. */
  function AxisOffset(s: string, name: string): (r: real)
    ensures r != 0.0 ==> Match(s, name).Some? && ParseFloat(Match(s, name).value) == Some(r)
  {
    match Match(s, name)
    case None => 0.0
    case Some(text) => ParseFloat(text).GetOr(0.0)
  }

  /** The offset a transform string stands for; an absent one (no overlay element) is no offset. */
  function TransformOffset(transform: Option<string>): (r: Point)
    ensures r != Origin ==> transform.Some? && !Includes(transform.value, "none")
    ensures r.x != 0.0 ==> Match(transform.value, "translateX").Some?
    ensures r.y != 0.0 ==> Match(transform.value, "translateY").Some?
  {
    match transform
    case None => Origin
    case Some(s) =>
      if Includes(s, "none") then Origin
      else Point(AxisOffset(s, "translateX"), AxisOffset(s, "translateY"))
  }

  /**
   * The export's offset computation, step by step: the captured texts with
   * `'0'` for a missing or empty capture, both reset to `'0'` when the
   * transform mentions `none`, and otherwise each read by `parseFloat(..) || 0`.
   */
  method ReadOffset(dynamicTransform: Option<string>) returns (p: Point)
    ensures p == TransformOffset(dynamicTransform)
  {
    var translateX := "0";
    var translateY := "0";
    if dynamicTransform.Some? {
      var mx := Match(dynamicTransform.value, "translateX");
      if mx.Some? && mx.value != "" {
        translateX := mx.value;
      }
      var my := Match(dynamicTransform.value, "translateY");
      if my.Some? && my.value != "" {
        translateY := my.value;
      }
    }
    ZeroText();
    var x: real;
    var y: real;
    if dynamicTransform.Some? && Includes(dynamicTransform.value, "none") {
      translateX := "0";
      translateY := "0";
      x := ParseFloat(translateX).GetOr(0.0);
      y := ParseFloat(translateY).GetOr(0.0);
    } else {
      x := ParseFloat(translateX).GetOr(0.0);
      y := ParseFloat(translateY).GetOr(0.0);
    }
    p := Point(x, y);
  }

  /** `parseFloat('0')` and `parseFloat('')` both yield 0 after `|| 0`. */
  lemma ZeroText()
    ensures ParseFloat("0").GetOr(0.0) == 0.0
    ensures ParseFloat("").GetOr(0.0) == 0.0
  {
    ParseFloatOfInt(0);
    assert IntToString(0) == "0";
  }

  /** A transform that mentions `none` gives no offset. */
  lemma NoneMeansOrigin(s: string)
    requires Includes(s, "none")
    ensures TransformOffset(Some(s)) == Origin
  {
  }

  /** An axis without a `translate?(…px)` component, or with an unreadable one, reads as 0. */
  lemma MissingOrUnreadableAxis(s: string, name: string)
    requires Match(s, name).None? || ParseFloat(Match(s, name).value).None?
    ensures AxisOffset(s, name) == 0.0
  {
  }

  lemma DropPrefix(a: string, x: string)
    ensures (a + x)[|a|..] == x
  {
  }

  lemma DropFirst(a: string, x: string)
    requires a != []
    ensures (a + x)[1..] == a[1..] + x
  {
  }

  /** `p` occurs at `k` when the suffix from `k` starts with `p`. */
  lemma OccursAtSuffix(s: string, p: string, k: nat, r: string)
    requires k <= |s| && s[k..] == p + r
    ensures OccursAt(s, p, k)
  {
    assert s[k..k + |p|] == s[k..][..|p|] == p;
  }

  /** The lazy group started at `k` ends right before the first `px)` when the text before it is capturable. */
  lemma {:induction false} CaptureEndOf(s: string, k: nat, u: string, r: string)
    requires k <= |s| && s[k..] == u + ("px)" + r)
    requires Capturable(u)
    ensures CaptureEnd(s, k) == Some(k + |u|)
    decreases |u|
  {
    if u == [] {
      OccursAtSuffix(s, "px)", k, r);
    } else {
      assert s[k] == u[0] by {
        assert s[k] == s[k..][0];
      }
      assert s[k + 2] != ')' by {
        assert s[k + 2] == s[k..][2];
        if |u| < 3 {
          assert s[k..][2] == ("px)" + r)[2 - |u|];
        }
      }
      assert !OccursAt(s, "px)", k) by {
        assert k + 3 <= |s| ==> s[k..k + 3][2] == s[k + 2];
      }
      assert s[k + 1..] == u[1..] + ("px)" + r) by {
        assert s[k + 1..] == s[k..][1..];
        DropFirst(u, "px)" + r);
      }
      CaptureEndOf(s, k + 1, u[1..], r);
    }
  }

  /** `open` occurs at `p` and its lazy group ends, capturing `g`. */
  predicate CapturesAt(s: string, open: string, p: int, g: string) {
    OccursAt(s, open, p) && CaptureEnd(s, p + |open|).Some? && p + |open| <= CaptureEnd(s, p + |open|).value
    && g == s[p + |open|..CaptureEnd(s, p + |open|).value]
  }

  /**
   * A found group is the capture at the leftmost occurrence of `open`, from
   * `i` on, whose lazy group can end: every earlier occurrence has no
   * reachable `px)`.
   */
  lemma {:induction false} MatchFromSome(s: string, open: string, i: nat)
    requires MatchFrom(s, open, i).Some?
    ensures exists p :: i <= p && CapturesAt(s, open, p, MatchFrom(s, open, i).value)
                        && forall q :: i <= q < p && OccursAt(s, open, q) ==> CaptureEnd(s, q + |open|).None?
    decreases |s| - i
  {
    var g := MatchFrom(s, open, i).value;
    if s[i..i + |open|] == open && CaptureEnd(s, i + |open|).Some? {
      assert CapturesAt(s, open, i, g);
    } else {
      MatchFromSome(s, open, i + 1);
      var p :| i + 1 <= p && CapturesAt(s, open, p, g)
               && forall q :: i + 1 <= q < p && OccursAt(s, open, q) ==> CaptureEnd(s, q + |open|).None?;
      assert forall q :: i <= q < p && OccursAt(s, open, q) ==> CaptureEnd(s, q + |open|).None?;
    }
  }

  /** `s.match(/name\((.*?)px\)/)?.[1]` is the capture at the leftmost occurrence of `name(` whose group can end. */
  lemma MatchSome(s: string, name: string)
    requires Match(s, name).Some?
    ensures exists p :: 0 <= p && CapturesAt(s, name + "(", p, Match(s, name).value)
                        && forall q :: 0 <= q < p && OccursAt(s, name + "(", q) ==> CaptureEnd(s, q + |name| + 1).None?
  {
    MatchFromSome(s, name + "(", 0);
  }

  /** Positions where `open` does not start are skipped by the search. */
  lemma {:induction false} MatchFromSkips(s: string, open: string, i: nat, j: nat)
    requires i <= j
    requires forall k :: i <= k < j ==> !OccursAt(s, open, k)
    ensures MatchFrom(s, open, i) == MatchFrom(s, open, j)
    decreases j - i
  {
    if i < j {
      if i + |open| > |s| {
        MatchFromBeyond(s, open, j);
      } else {
        assert !OccursAt(s, open, i);
        MatchFromSkips(s, open, i + 1, j);
      }
    }
  }

  lemma {:induction false} MatchFromBeyond(s: string, open: string, j: nat)
    requires j + |open| > |s|
    ensures MatchFrom(s, open, j) == None
  {
  }

  /**
   * When `open` first occurs at `i` and is followed by capturable text `u`
   * and `px)`, the match's group is `u`.
   */
  lemma MatchIs(s: string, open: string, i: nat, u: string, r: string)
    requires i <= |s| && s[i..] == open + (u + ("px)" + r))
    requires forall k :: 0 <= k < i ==> !OccursAt(s, open, k)
    requires Capturable(u)
    ensures MatchFrom(s, open, 0) == Some(u)
  {
    MatchFromStart(s, open, i, u, r);
    MatchFromSkips(s, open, 0, i);
  }

  /** The search started where `open` occurs, followed by capturable text `u` and `px)`, captures `u`. */
  lemma MatchFromStart(s: string, open: string, i: nat, u: string, r: string)
    requires i <= |s| && s[i..] == open + (u + ("px)" + r))
    requires Capturable(u)
    ensures MatchFrom(s, open, i) == Some(u)
  {
    var k := i + |open|;
    AfterOpen(s, open, i, u + ("px)" + r));
    CaptureEndOf(s, k, u, r);
    assert s[k..k + |u|] == u by {
      assert s[k..k + |u|] == s[k..][..|u|];
    }
    MatchFromAt(s, open, i, k + |u|);
  }

  /** When `s` continues at `i` with `open` and then `x`, `open` occurs at `i` and `x` is what follows it. */
  lemma AfterOpen(s: string, open: string, i: nat, x: string)
    requires i <= |s| && s[i..] == open + x
    ensures OccursAt(s, open, i) && s[i + |open|..] == x
  {
    assert s[i + |open|..] == s[i..][|open|..];
    DropPrefix(open, x);
    OccursAtSuffix(s, open, i, x);
  }

  lemma MatchFromAt(s: string, open: string, i: nat, j: nat)
    requires OccursAt(s, open, i) && CaptureEnd(s, i + |open|) == Some(j)
    ensures MatchFrom(s, open, i) == Some(s[i + |open|..j])
  {
  }

  /** Characters of a number as `String(n)` writes it, none of which the parse treats specially. */
  predicate NumberText(u: string) {
    forall i :: 0 <= i < |u| ==> IsDigit(u[i]) || u[i] in {'+', '-', '.', 'e', 'E'}
  }

  /** The transform a drag renders: its two translations, then whatever other transform functions there are. */
  function TranslateCss(u: string, v: string, rest: string): string {
    "translateX(" + (u + ("px) translateY(" + (v + ("px)" + rest))))
  }

  lemma NumberTextIsCapturable(u: string)
    requires NumberText(u)
    ensures Capturable(u) && Lacks(u, 'Y') && Lacks(u, 'o')
  {
  }

  /** The X component of a rendered translation is found at the very start. */
  lemma MatchX(u: string, v: string, rest: string)
    requires NumberText(u)
    ensures Match(TranslateCss(u, v, rest), "translateX") == Some(u)
  {
    var s := TranslateCss(u, v, rest);
    NumberTextIsCapturable(u);
    assert "translateX" + "(" == "translateX(";
    assert s[0..] == s;
    MatchIs(s, "translateX(", 0, u, " translateY(" + (v + ("px)" + rest)));
  }

  /** The Y component is found right after the X one: nothing before it holds a `Y`. */
  lemma MatchY(u: string, v: string, rest: string)
    requires NumberText(u) && NumberText(v)
    ensures Match(TranslateCss(u, v, rest), "translateY") == Some(v)
  {
    var s := TranslateCss(u, v, rest);
    var p := 11 + |u| + 4;
    assert forall k :: 0 <= k < p ==> !OccursAt(s, "translateY(", k) by {
      forall k | 0 <= k < p
        ensures !OccursAt(s, "translateY(", k)
      {
        NoYBefore(u, v, rest, k + 9);
        assert s[k..k + 11][9] != "translateY("[9];
      }
    }
    assert s[p..] == "translateY(" + (v + ("px)" + rest)) by {
      DropPrefix("translateX(", u + ("px) translateY(" + (v + ("px)" + rest))));
      DropPrefix(u, "px) translateY(" + (v + ("px)" + rest)));
      DropPrefix("px) ", "translateY(" + (v + ("px)" + rest)));
      assert "px) translateY(" + (v + ("px)" + rest)) == "px) " + ("translateY(" + (v + ("px)" + rest)));
      assert s[p..] == s[11..][|u|..][4..];
    }
    NumberTextIsCapturable(v);
    assert "translateY" + "(" == "translateY(";
    MatchIs(s, "translateY(", p, v, rest);
  }

  /** Up to the `Y` of `translateY(` no character of a rendered translation is a `Y`. */
  lemma NoYBefore(u: string, v: string, rest: string, j: int)
    requires NumberText(u) && 0 <= j < 11 + |u| + 13
    ensures TranslateCss(u, v, rest)[j] != 'Y'
  {
    NumberTextIsCapturable(u);
    var s := TranslateCss(u, v, rest);
    if j >= 11 + |u| {
      assert s[j] == "px) translateY("[j - 11 - |u|];
    }
  }

  lemma LacksConcat(a: string, b: string, c: char)
    requires Lacks(a, c) && Lacks(b, c)
    ensures Lacks(a + b, c)
  {
  }

  /** A string without an `o` does not include `none`. */
  lemma LacksOExcludesNone(s: string)
    requires Lacks(s, 'o')
    ensures !Includes(s, "none")
  {
    forall i | 0 <= i <= |s| - 4
      ensures !OccursAt(s, "none", i)
    {
      assert s[i + 1] != 'o';
    }
  }

  /** A rendered translation reads back as the numbers its two components denote. */
  lemma OffsetOfTranslate(u: string, v: string, rest: string)
    requires NumberText(u) && NumberText(v) && Lacks(rest, 'o')
    ensures TransformOffset(Some(TranslateCss(u, v, rest))) ==
            Point(ParseFloat(u).GetOr(0.0), ParseFloat(v).GetOr(0.0))
  {
    var s := TranslateCss(u, v, rest);
    assert AxisOffset(s, "translateX") == ParseFloat(u).GetOr(0.0) by {
      MatchX(u, v, rest);
    }
    assert AxisOffset(s, "translateY") == ParseFloat(v).GetOr(0.0) by {
      MatchY(u, v, rest);
    }
    assert !Includes(s, "none") by {
      NumberTextIsCapturable(u);
      NumberTextIsCapturable(v);
      LacksConcat("px)", rest, 'o');
      LacksConcat(v, "px)" + rest, 'o');
      LacksConcat("px) translateY(", v + ("px)" + rest), 'o');
      LacksConcat(u, "px) translateY(" + (v + ("px)" + rest)), 'o');
      LacksConcat("translateX(", u + ("px) translateY(" + (v + ("px)" + rest))), 'o');
      LacksOExcludesNone(s);
    }
  }

  lemma {:induction false} NatToStringIsNumberText(n: nat)
    ensures NumberText(NatToString(n))
  {
  }

  lemma IntToStringIsNumberText(n: int)
    ensures NumberText(IntToString(n))
  {
    NatToStringIsNumberText(if n < 0 then -n else n);
  }

  /** A drag by whole pixels, rendered and read back, gives the same offset. */
  lemma OffsetRoundTrip(x: int, y: int, rest: string)
    requires Lacks(rest, 'o')
    ensures TransformOffset(Some(TranslateCss(IntToString(x), IntToString(y), rest))) == Point(x as real, y as real)
  {
    IntToStringIsNumberText(x);
    IntToStringIsNumberText(y);
    OffsetOfTranslate(IntToString(x), IntToString(y), rest);
    ParseFloatOfInt(x);
    ParseFloatOfInt(y);
  }

  /** The offset of `translateX(12px) translateY(-5px)` is (12, -5). */
  lemma OffsetExample()
    ensures TransformOffset(Some("translateX(12px) translateY(-5px)")) == Point(12.0, -5.0)
  {
    assert TranslateCss("12", "-5", "") == "translateX(12px) translateY(-5px)";
    assert IntToString(12) == "12" && IntToString(-5) == "-5";
    OffsetRoundTrip(12, -5, "");
  }

  /** `none` and an absent transform give no offset. */
  lemma OriginExamples()
    ensures TransformOffset(Some("none")) == Origin
    ensures TransformOffset(None) == Origin
  {
    assert OccursAt("none", "none", 0);
  }
}
