/**
 `buildTargetList`: the template URLs of one base URL. A template is the base
 URL with the placeholder put into one place of its path; the payload stage
 later replaces that placeholder.

 The order of the templates is described by slots: segment `i` contributes
 a slot holding the fuzzed segment and, when upper-casing changes the fuzzed
 segment, a slot holding the upper-cased copy right after it. Rendering a
 slot puts its text in place of the segment and serialises the URL.
 */
module Templates {
  import opened Strings
  import opened Urls
  import opened Catalog

  /** A path segment with surrounding white space removed and the placeholder
      in front of it. */
  function Fuzzed(seg: string): string {
    FuzzerKey + TrimSpace(seg)
  }

  /** Upper-casing the fuzzed segment changes it, so a second template follows. */
  predicate HasVariant(seg: string) {
    ToUpper(Fuzzed(seg)) != Fuzzed(seg)
  }

  /** For each segment, whether it gets an upper-cased copy. */
  function VariantFlags(parts: seq<string>): (flags: seq<bool>)
    ensures |flags| == |parts|
  {
    if parts == [] then [] else [HasVariant(parts[0])] + VariantFlags(parts[1..])
  }

  lemma {:induction false} VariantFlagAt(parts: seq<string>, i: nat)
    requires i < |parts|
    ensures VariantFlags(parts)[i] == HasVariant(parts[i])
  {
    if i > 0 {
      VariantFlagAt(parts[1..], i - 1);
    }
  }

  /** The text a template puts in place of a segment: the fuzzed segment,
      or its upper-cased copy. */
  function SegmentText(seg: string, upper: bool): string {
    if upper then ToUpper(Fuzzed(seg)) else Fuzzed(seg)
  }

  /** One template position: segment `index` replaced by `text`. */
  datatype Slot = Slot(index: nat, text: string)

  /** The slots of segment `i`: the fuzzed segment, then its upper-cased copy
      when the segment is flagged. */
  function SegmentSlots(parts: seq<string>, flags: seq<bool>, i: nat): seq<Slot>
    requires i < |parts| == |flags|
  {
    [Slot(i, SegmentText(parts[i], false))]
    + (if flags[i] then [Slot(i, SegmentText(parts[i], true))] else [])
  }

  /** The slots of segments `0 .. n-1`, in segment order. */
  function SlotsUpTo(parts: seq<string>, flags: seq<bool>, n: nat): seq<Slot>
    requires n <= |parts| == |flags|
  {
    if n == 0 then [] else SlotsUpTo(parts, flags, n - 1) + SegmentSlots(parts, flags, n - 1)
  }

  /** Number of segments among `0 .. n-1` that get an upper-cased copy. */
  function CountTrue(flags: seq<bool>, n: nat): nat
    requires n <= |flags|
  {
    if n == 0 then 0 else CountTrue(flags, n - 1) + (if flags[n - 1] then 1 else 0)
  }

  /** The base URL with path segment `i` replaced by `x`, serialised. */
  function WithSegment(u: Url, parts: seq<string>, i: nat, x: string): string
    requires i < |parts|
  {
    Serialize(WithPath(u, Join(parts[i := x])))
  }

  /** The template a slot stands for. */
  function Render(u: Url, parts: seq<string>, s: Slot): string {
    if s.index < |parts| then WithSegment(u, parts, s.index, s.text) else ""
  }

  /** The templates of a list of slots. */
  function Rendered(u: Url, parts: seq<string>, slots: seq<Slot>): (r: seq<string>)
    ensures |r| == |slots|
  {
    if slots == [] then [] else [Render(u, parts, slots[0])] + Rendered(u, parts, slots[1..])
  }

  lemma {:induction false} RenderedAt(u: Url, parts: seq<string>, slots: seq<Slot>, k: nat)
    requires k < |slots|
    ensures Rendered(u, parts, slots)[k] == Render(u, parts, slots[k])
  {
    if k > 0 {
      RenderedAt(u, parts, slots[1..], k - 1);
    }
  }

  /** The last template: the placeholder written straight after the path. */
  function AppendedTemplate(u: Url): string {
    Serialize(WithPath(u, u.path + FuzzerKey))
  }

  /** The segment templates of a list of segments, in the order they are
      generated. */
  function SegmentTemplates(u: Url, parts: seq<string>): seq<string> {
    Rendered(u, parts, SlotsUpTo(parts, VariantFlags(parts), |parts|))
  }

  /** All templates of a base URL: those of its path segments, then the
      appended-placeholder one. */
  function TemplateList(u: Url): seq<string> {
    SegmentTemplates(u, Split(u.path)) + [AppendedTemplate(u)]
  }

  /** Rendering commutes with concatenation of slot lists. */
  lemma {:induction false} RenderedAppend(u: Url, parts: seq<string>, a: seq<Slot>, b: seq<Slot>)
    ensures Rendered(u, parts, a + b) == Rendered(u, parts, a) + Rendered(u, parts, b)
  {
    if a != [] {
      assert (a + b)[1..] == a[1..] + b;
      RenderedAppend(u, parts, a[1..], b);
    } else {
      assert a + b == b;
    }
  }

  /** One round of the generating loop, for segment `i`: copy the segments,
      fuzz segment `i`, join and serialise; then upper-case it and add a second
      template if that changed it. */
  method AddSegmentTemplates(u: Url, parts: seq<string>, i: nat, list: seq<string>)
    returns (list': seq<string>)
    requires i < |parts|
    ensures list' == list + Rendered(u, parts, SegmentSlots(parts, VariantFlags(parts), i))
  {
    VariantFlagAt(parts, i);
    var p := parts;
    p := p[i := FuzzerKey + TrimSpace(p[i])];
    list' := list + [Serialize(WithPath(u, Join(p)))];
    var t := ToUpper(p[i]);
    if t != p[i] {
      p := p[i := t];
      assert p == parts[i := t];
      list' := list' + [Serialize(WithPath(u, Join(p)))];
    }
  }

  /** The generating loop over the segments of `parts`, in order. */
  method AllSegmentTemplates(u: Url, parts: seq<string>) returns (list: seq<string>)
    ensures list == SegmentTemplates(u, parts)
  {
    ghost var flags := VariantFlags(parts);
    list := [];
    for i := 0 to |parts|
      invariant list == Rendered(u, parts, SlotsUpTo(parts, flags, i))
    {
      RenderedAppend(u, parts, SlotsUpTo(parts, flags, i), SegmentSlots(parts, flags, i));
      list := AddSegmentTemplates(u, parts, i, list);
    }
  }

  /** `buildTargetList`: the templates of every path segment in order, then
      the appended-placeholder template. */
  method BuildTargetList(u: Url) returns (list: seq<string>)
    ensures list == TemplateList(u)
  {
    var parts := Split(u.path);
    list := AllSegmentTemplates(u, parts);
    list := list + [Serialize(WithPath(u, u.path + FuzzerKey))];
  }
}
