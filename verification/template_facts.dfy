/**
 What `buildTargetList` promises about its templates: how many there are,
 where each segment's templates sit, that a template changes exactly one
 path segment, which segments get an upper-cased copy, and where a payload
 lands when it replaces the placeholder.
 */
module TemplateFacts {
  import opened Strings
  import opened Urls
  import opened Catalog
  import opened Templates

  /* ---------------------------------------------------------------------- */
  /* Slots: counting and positions                                          */
  /* ---------------------------------------------------------------------- */

  /** Every segment contributes one slot, and one more when it is flagged. */
  lemma {:induction false} SlotsCount(parts: seq<string>, flags: seq<bool>, n: nat)
    requires n <= |parts| == |flags|
    ensures |SlotsUpTo(parts, flags, n)| == n + CountTrue(flags, n)
    ensures CountTrue(flags, n) <= n
  {
    if n > 0 {
      SlotsCount(parts, flags, n - 1);
    }
  }

  /** Segment `i`'s slot sits at `i + CountTrue(flags, i)`; its upper-cased
      slot, when flagged, right after it. */
  lemma {:induction false} SlotPositions(parts: seq<string>, flags: seq<bool>, n: nat, i: nat)
    requires i < n <= |parts| == |flags|
    ensures var j := i + CountTrue(flags, i);
            var all := SlotsUpTo(parts, flags, n);
            && j + (if flags[i] then 1 else 0) < |all|
            && all[j] == Slot(i, SegmentText(parts[i], false))
            && (flags[i] ==> all[j + 1] == Slot(i, SegmentText(parts[i], true)))
  {
    var j := i + CountTrue(flags, i);
    var pre := SlotsUpTo(parts, flags, n - 1);
    var last := SegmentSlots(parts, flags, n - 1);
    var all := SlotsUpTo(parts, flags, n);
    assert all == pre + last;
    if i == n - 1 {
      SlotsCount(parts, flags, i);
      assert all[j] == last[0];
      if flags[i] {
        assert all[j + 1] == last[1];
      }
    } else {
      SlotPositions(parts, flags, n - 1, i);
      assert all[j] == pre[j];
      if flags[i] {
        assert all[j + 1] == pre[j + 1];
      }
    }
  }

  /** Conversely every slot names a segment below `n` and holds that
      segment's text, upper-cased only for a flagged segment. */
  lemma {:induction false} SlotsInRange(parts: seq<string>, flags: seq<bool>, n: nat, k: nat)
    requires n <= |parts| == |flags| && k < |SlotsUpTo(parts, flags, n)|
    ensures var s := SlotsUpTo(parts, flags, n)[k];
            && s.index < n
            && (s.text == SegmentText(parts[s.index], false)
                || (flags[s.index] && s.text == SegmentText(parts[s.index], true)))
  {
    var a := SlotsUpTo(parts, flags, n - 1);
    assert SlotsUpTo(parts, flags, n) == a + SegmentSlots(parts, flags, n - 1);
    if k < |a| {
      SlotsInRange(parts, flags, n - 1, k);
    }
  }

  /* ---------------------------------------------------------------------- */
  /* Which segments get an upper-cased copy                                 */
  /* ---------------------------------------------------------------------- */

  /** The placeholder has no lower-case letters, so upper-casing keeps it. */
  lemma UpperFuzzerKey()
    ensures ToUpper(FuzzerKey) == FuzzerKey
  {
    ToUpperChanges(FuzzerKey);
    assert forall k :: 0 <= k < |FuzzerKey| ==> !IsLower(FuzzerKey[k]);
  }

  /** Upper-casing a fuzzed segment keeps the placeholder in front and
      upper-cases only the trimmed segment after it. */
  lemma UpperFuzzedShape(seg: string)
    ensures ToUpper(Fuzzed(seg)) == FuzzerKey + ToUpper(TrimSpace(seg))
  {
    ToUpperAppend(FuzzerKey, TrimSpace(seg));
    UpperFuzzerKey();
  }

  /** A segment gets an upper-cased copy exactly when its trimmed text holds
      a lower-case ASCII letter. */
  lemma VariantIff(seg: string)
    ensures HasVariant(seg) <==>
      exists k :: 0 <= k < |TrimSpace(seg)| && IsLower(TrimSpace(seg)[k])
  {
    var y := TrimSpace(seg);
    UpperFuzzedShape(seg);
    ToUpperChanges(y);
    assert (FuzzerKey + ToUpper(y))[|FuzzerKey|..] == ToUpper(y);
    assert (FuzzerKey + y)[|FuzzerKey|..] == y;
  }

  /* ---------------------------------------------------------------------- */
  /* Counting and locating the templates                                    */
  /* ---------------------------------------------------------------------- */

  /** A path of `n` segments of which `k` get an upper-cased copy gives
      `n + 1 + k` templates, between `n + 1` and `2n + 1`; the last one is the
      appended-placeholder template. */
  lemma TemplatesCount(u: Url)
    ensures var parts := Split(u.path);
            var n := |parts|;
            && |TemplateList(u)| == n + 1 + CountTrue(VariantFlags(parts), n)
            && n + 1 <= |TemplateList(u)| <= 2 * n + 1
    ensures TemplateList(u)[|TemplateList(u)| - 1] == AppendedTemplate(u)
  {
    var parts := Split(u.path);
    SlotsCount(parts, VariantFlags(parts), |parts|);
  }

  /** The text of a segment template is the placeholder followed by the
      trimmed segment, upper-cased for the copy. */
  lemma SegmentTextShape(seg: string, upper: bool)
    ensures SegmentText(seg, upper)
            == FuzzerKey + (if upper then ToUpper(TrimSpace(seg)) else TrimSpace(seg))
  {
    if upper {
      UpperFuzzedShape(seg);
    }
  }

  /** A rendered slot is its segment replaced by its text. */
  lemma RenderedSlot(u: Url, parts: seq<string>, slots: seq<Slot>, j: nat, i: nat, x: string)
    requires j < |slots| && i < |parts| && slots[j] == Slot(i, x)
    ensures Rendered(u, parts, slots)[j] == WithSegment(u, parts, i, x)
  {
    RenderedAt(u, parts, slots, j);
  }

  /** Among the rendered slots of all segments, segment `i`'s template sits
      at `i + CountTrue(flags, i)`, its upper-cased copy right after it. */
  lemma RenderedSlotsAt(u: Url, parts: seq<string>, flags: seq<bool>, i: nat)
    requires i < |parts| == |flags|
    ensures var j := i + CountTrue(flags, i);
            var list := Rendered(u, parts, SlotsUpTo(parts, flags, |parts|));
            && j + (if flags[i] then 1 else 0) < |list|
            && list[j] == WithSegment(u, parts, i, SegmentText(parts[i], false))
            && (flags[i] ==> list[j + 1] == WithSegment(u, parts, i, SegmentText(parts[i], true)))
  {
    var slots := SlotsUpTo(parts, flags, |parts|);
    var j := i + CountTrue(flags, i);
    SlotPositions(parts, flags, |parts|, i);
    RenderedSlot(u, parts, slots, j, i, SegmentText(parts[i], false));
    if flags[i] {
      RenderedSlot(u, parts, slots, j + 1, i, SegmentText(parts[i], true));
    }
  }

  /** The segment templates are the first elements of the template list. */
  lemma SegmentTemplateIn(u: Url, parts: seq<string>, j: nat)
    requires parts == Split(u.path)
    requires j < |Rendered(u, parts, SlotsUpTo(parts, VariantFlags(parts), |parts|))|
    ensures j < |TemplateList(u)| - 1
    ensures TemplateList(u)[j] == Rendered(u, parts, SlotsUpTo(parts, VariantFlags(parts), |parts|))[j]
  {
  }

  /** The template of segment `i` sits at `i + k`, `k` counting the
      upper-cased copies of the segments before it; when segment `i` has an
      upper-cased copy, that copy comes right after it. */
  lemma TemplateAt(u: Url, i: nat)
    requires i < |Split(u.path)|
    ensures var parts := Split(u.path);
            var j := i + CountTrue(VariantFlags(parts), i);
            && j < |TemplateList(u)| - 1
            && TemplateList(u)[j] == WithSegment(u, parts, i, SegmentText(parts[i], false))
            && (HasVariant(parts[i]) ==>
                  && j + 1 < |TemplateList(u)| - 1
                  && TemplateList(u)[j + 1] == WithSegment(u, parts, i, SegmentText(parts[i], true)))
  {
    var parts := Split(u.path);
    var flags := VariantFlags(parts);
    var j := i + CountTrue(flags, i);
    RenderedSlotsAt(u, parts, flags, i);
    VariantFlagAt(parts, i);
    SegmentTemplateIn(u, parts, j);
    if flags[i] {
      SegmentTemplateIn(u, parts, j + 1);
    }
  }

  /** Without an upper-cased copy, the template right after segment `i`'s
      is the next segment's template, or the appended-placeholder template
      when `i` is the last segment. */
  lemma NoVariantNext(u: Url, i: nat)
    requires i < |Split(u.path)|
    requires !HasVariant(Split(u.path)[i])
    ensures var parts := Split(u.path);
            var j := i + CountTrue(VariantFlags(parts), i);
            && j + 1 < |TemplateList(u)|
            && (i + 1 < |parts| ==>
                  TemplateList(u)[j + 1] == WithSegment(u, parts, i + 1, SegmentText(parts[i + 1], false)))
            && (i + 1 == |parts| ==>
                  && j + 1 == |TemplateList(u)| - 1
                  && TemplateList(u)[j + 1] == AppendedTemplate(u))
  {
    var parts := Split(u.path);
    var flags := VariantFlags(parts);
    VariantFlagAt(parts, i);
    assert CountTrue(flags, i + 1) == CountTrue(flags, i);
    TemplatesCount(u);
    if i + 1 < |parts| {
      TemplateAt(u, i + 1);
    }
  }

  /** Every template before the last one is a segment template: the
      base URL with one segment fuzzed, and upper-cased only if that
      segment has a copy. */
  lemma TemplateIsSegment(u: Url, k: nat)
    requires k < |TemplateList(u)| - 1
    ensures exists i, upper :: 0 <= i < |Split(u.path)| && (upper ==> HasVariant(Split(u.path)[i])) &&
              TemplateList(u)[k] == WithSegment(u, Split(u.path), i, SegmentText(Split(u.path)[i], upper))
  {
    var parts := Split(u.path);
    var flags := VariantFlags(parts);
    var slots := SlotsUpTo(parts, flags, |parts|);
    assert TemplateList(u) == SegmentTemplates(u, parts) + [AppendedTemplate(u)];
    RenderedAt(u, parts, slots, k);
    SlotsInRange(parts, flags, |parts|, k);
    var s := slots[k];
    VariantFlagAt(parts, s.index);
    var upper := s.text != SegmentText(parts[s.index], false);
    assert TemplateList(u)[k] == WithSegment(u, parts, s.index, SegmentText(parts[s.index], upper));
  }

  /* ---------------------------------------------------------------------- */
  /* A template changes one segment                                          */
  /* ---------------------------------------------------------------------- */

  /** Upper-casing never produces a '/'. */
  lemma {:induction false} ToUpperKeepsSlashOut(s: string)
    requires '/' !in s
    ensures '/' !in ToUpper(s)
  {
    ToUpperAt(s);
    forall k | 0 <= k < |s|
      ensures ToUpper(s)[k] != '/'
    {
      assert s[k] != '/';
    }
  }

  /** A segment template is the base URL with its path re-joined from the same
      segments, except that segment `i` is the placeholder followed by the
      trimmed (and possibly upper-cased) segment: splitting its path again
      gives exactly that list back. Scheme, host, suffix and every other
      segment stay as they are. */
  lemma TemplateSegments(u: Url, i: nat, upper: bool)
    requires i < |Split(u.path)|
    ensures var parts := Split(u.path);
            var f := SegmentText(parts[i], upper);
            var w := WithPath(u, Join(parts[i := f]));
            && WithSegment(u, parts, i, f) == Serialize(w)
            && w.scheme == u.scheme && w.host == u.host && w.suffix == u.suffix
            && Split(w.path) == parts[i := f]
            && |Split(w.path)| == |parts|
            && (forall j :: 0 <= j < |parts| && j != i ==> Split(w.path)[j] == parts[j])
  {
    var parts := Split(u.path);
    var f := SegmentText(parts[i], upper);
    SegmentTextNoSlash(parts[i], upper);
    SplitJoin(parts[i := f]);
  }

  /** A segment template's text has no '/' when the segment has none. */
  lemma SegmentTextNoSlash(seg: string, upper: bool)
    requires '/' !in seg
    ensures '/' !in SegmentText(seg, upper)
  {
    SegmentTextShape(seg, upper);
    TrimSpaceKeepsOut(seg, '/');
    var y := TrimSpace(seg);
    if upper {
      ToUpperKeepsSlashOut(y);
    }
    var z := if upper then ToUpper(y) else y;
    assert SegmentText(seg, upper) == FuzzerKey + z;
    assert forall k :: 0 <= k < |FuzzerKey| ==> FuzzerKey[k] != '/';
  }

  /* ---------------------------------------------------------------------- */
  /* Where a payload lands                                                  */
  /* ---------------------------------------------------------------------- */

  /** No proper suffix of the placeholder is a prefix of it, so two of its
      occurrences cannot overlap. */
  lemma FuzzerKeyUnbordered()
    ensures |FuzzerKey| >= 1
    ensures forall m :: 1 <= m < |FuzzerKey| ==> FuzzerKey[m] != FuzzerKey[0]
  {
  }

  /** The text a segment template writes before the placeholder. */
  function SegmentHead(u: Url, parts: seq<string>, i: nat, y: string): string
    requires i < |parts|
  {
    Lead(WithPath(u, Join(parts[i := FuzzerKey + y]))) + JoinHead(parts, i)
  }

  /** The template of segment `i`, with the segment's text `y` after the
      placeholder, is the head, the placeholder, and the rest of the path
      and the suffix. */
  lemma SegmentTemplateSplit(u: Url, parts: seq<string>, i: nat, y: string)
    requires i < |parts|
    ensures WithSegment(u, parts, i, FuzzerKey + y)
            == SegmentHead(u, parts, i, y) + FuzzerKey + (y + JoinTail(parts, i) + u.suffix)
  {
    var w := WithPath(u, Join(parts[i := FuzzerKey + y]));
    var lead, head, tail := Lead(w), JoinHead(parts, i), JoinTail(parts, i);
    JoinUpdate(parts, i, FuzzerKey + y);
    assert w.path == head + (FuzzerKey + y) + tail;
    assert Serialize(w) == lead + w.path + w.suffix;
    Regroup(lead, head, FuzzerKey, y, tail, u.suffix);
  }

  /** Regrouping the pieces of a segment template around the placeholder. */
  lemma Regroup(a: string, b: string, k: string, y: string, t: string, s: string)
    ensures a + (b + (k + y) + t) + s == (a + b) + k + (y + t + s)
  {
  }

  /** Replacing the placeholder in the template of segment `i` puts the
      payload exactly in front of the segment's text: the lead, the earlier
      segments, the rest of the path and the suffix stay as they are —
      provided the placeholder does not already occur before it. */
  lemma PayloadLandsInSegment(u: Url, parts: seq<string>, i: nat, y: string, p: string)
    requires i < |parts|
    requires Absent(SegmentHead(u, parts, i, y), FuzzerKey)
    ensures ReplaceFirst(WithSegment(u, parts, i, FuzzerKey + y), FuzzerKey, p)
            == SegmentHead(u, parts, i, y) + p + (y + JoinTail(parts, i) + u.suffix)
  {
    SegmentTemplateSplit(u, parts, i, y);
    FuzzerKeyUnbordered();
    ReplaceAfterClean(SegmentHead(u, parts, i, y), FuzzerKey, y + JoinTail(parts, i) + u.suffix, p);
  }

  /** The last template writes the placeholder straight after the path, with
      no '/' in between, and before the suffix. For an empty path the root
      '/' comes before the placeholder. */
  lemma AppendedShape(u: Url)
    ensures AppendedTemplate(u) == Lead(WithPath(u, u.path + FuzzerKey)) + u.path + FuzzerKey + u.suffix
    ensures u.path != "" ==> AppendedTemplate(u) == Lead(u) + u.path + FuzzerKey + u.suffix
    ensures Valid(u) && u.path == "" ==>
              AppendedTemplate(u) == u.scheme + "://" + u.host + "/" + FuzzerKey + u.suffix
  {
  }

  /** Replacing the placeholder in the last template puts the payload right
      after the path, provided the placeholder does not occur before it. */
  lemma PayloadLandsAfterPath(u: Url, p: string)
    requires Absent(Lead(WithPath(u, u.path + FuzzerKey)) + u.path, FuzzerKey)
    ensures ReplaceFirst(AppendedTemplate(u), FuzzerKey, p)
            == Lead(WithPath(u, u.path + FuzzerKey)) + u.path + p + u.suffix
  {
    var h := Lead(WithPath(u, u.path + FuzzerKey)) + u.path;
    assert AppendedTemplate(u) == h + FuzzerKey + u.suffix;
    FuzzerKeyUnbordered();
    ReplaceAfterClean(h, FuzzerKey, u.suffix, p);
  }
}
