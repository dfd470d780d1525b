/**
 What the generating loop promises: the layout and number of the probes of
 one base URL, that the stream of all URLs is the URLs' probes one after the
 other, and that no probe of a URL with scheme and host has an empty host,
 so a worker only stops at the zero target of the closed channel.
 */
module GeneratorFacts {
  import opened Strings
  import opened Urls
  import opened Catalog
  import opened Templates
  import opened TemplateFacts
  import opened Generator

  /* ---------------------------------------------------------------------- */
  /* Templates crossed with payloads                                         */
  /* ---------------------------------------------------------------------- */

  /** Crossing gives one probe per template and payload. */
  lemma {:induction false} CrossedCount(templates: seq<string>, payloads: seq<string>)
    ensures |Crossed(templates, payloads)| == |templates| * |payloads|
  {
    if templates != [] {
      var n := |templates|;
      CrossedCount(templates[..n - 1], payloads);
      assert (n - 1) * |payloads| + |payloads| == n * |payloads|;
    }
  }

  /** The probe of template `t` and payload `q` sits at `t * |payloads| + q`:
      templates are the outer loop, payloads the inner one. */
  lemma {:induction false} CrossedAt(templates: seq<string>, payloads: seq<string>, t: nat, q: nat)
    requires t < |templates| && q < |payloads|
    ensures t * |payloads| + q < |Crossed(templates, payloads)|
    ensures Crossed(templates, payloads)[t * |payloads| + q]
            == Target(ReplaceFirst(templates[t], FuzzerKey, payloads[q]), "", "")
  {
    var n := |templates|;
    var front := templates[..n - 1];
    CrossedCount(templates, payloads);
    CrossedCount(front, payloads);
    assert Crossed(templates, payloads) == Crossed(front, payloads) + PayloadRow(templates[n - 1], payloads);
    if t < n - 1 {
      CrossedAt(front, payloads, t, q);
      assert front[t] == templates[t];
    } else {
      assert t * |payloads| == (n - 1) * |payloads|;
    }
  }

  /* ---------------------------------------------------------------------- */
  /* The probes of one base URL                                              */
  /* ---------------------------------------------------------------------- */

  /** `17 + 38 T` probes for `T` templates: one Origin probe, 14 header
      probes, 2 rewrite probes and 38 payload probes per template. */
  lemma TargetsWithCount(u: Url, templates: seq<string>)
    ensures |TargetsWith(u, templates)| == 17 + 38 * |templates|
  {
    CatalogShape();
    CrossedCount(templates, UrlPayloads);
  }

  /** The order of the probes of one base URL: the Origin probe on the URL,
      then the trusted-IP headers in catalog order with value 127.0.0.1, then
      the rewrite headers on the URL without its path and with the path as
      value. */
  lemma HeaderLayout(u: Url, templates: seq<string>)
    ensures |TargetsWith(u, templates)| >= 17
    ensures TargetsWith(u, templates)[0] == Target(Serialize(u), "Origin", "null")
    ensures forall k :: 0 <= k < 14 ==>
              TargetsWith(u, templates)[1 + k] == Target(Serialize(u), HeaderPayloads[k], "127.0.0.1")
    ensures forall k :: 0 <= k < 2 ==>
              TargetsWith(u, templates)[15 + k] == Target(Serialize(WithPath(u, "")), UrlHeaders[k], u.path)
  {
    CatalogShape();
    TargetsWithCount(u, templates);
  }

  /** After the header probes come the payload probes, with no header: the
      probe at `17 + 38 t + q` is template `t` with its first placeholder
      replaced by payload `q`. */
  lemma PayloadLayout(u: Url, templates: seq<string>, t: nat, q: nat)
    requires t < |templates| && q < 38
    ensures 17 + 38 * t + q < |TargetsWith(u, templates)|
    ensures TargetsWith(u, templates)[17 + 38 * t + q]
            == Target(ReplaceFirst(templates[t], FuzzerKey, UrlPayloads[q]), "", "")
  {
    var all := TargetsWith(u, templates);
    HeadOfTargets(u, templates);
    CrossedAt(templates, UrlPayloads, t, q);
    var k := t * |UrlPayloads| + q;
    assert |UrlPayloads| == 38;
    assert k == 38 * t + q;
    assert all[17 + k] == all[17..][k];
  }

  /** The probes of one base URL are 17 header probes followed by the
      crossed templates and payloads. */
  lemma HeadOfTargets(u: Url, templates: seq<string>)
    ensures |TargetsWith(u, templates)| >= 17
    ensures TargetsWith(u, templates)[17..] == Crossed(templates, UrlPayloads)
  {
    assert |HeaderPayloads| == 14 && |UrlHeaders| == 2;
  }

  /** Per base URL: `17 + 38 T` probes, `T` being the number of templates,
      that is `17 + 38 (N + 1 + K)` for `N` path segments of which `K` get an
      upper-cased copy. */
  lemma TargetsCount(u: Url)
    ensures |TargetsFor(u)| == 17 + 38 * |TemplateList(u)|
    ensures var parts := Split(u.path);
            |TargetsFor(u)| == 17 + 38 * (|parts| + 1 + CountTrue(VariantFlags(parts), |parts|))
  {
    TargetsWithCount(u, TemplateList(u));
    TemplatesCount(u);
  }

  /** `/a/b` splits into "", "a" and "b". */
  lemma ExampleSplit()
    ensures Split("/a/b") == ["", "a", "b"]
  {
    assert Join(["", "a", "b"]) == "/a/b";
    SplitJoin(["", "a", "b"]);
  }

  /** A segment that is one lower-case letter gets an upper-cased copy. */
  lemma LetterHasVariant(c: char)
    requires IsLower(c)
    ensures HasVariant([c])
  {
    var y := TrimSpace([c]);
    assert y == [c];
    assert 0 < |y| && IsLower(y[0]);
    assert exists k :: 0 <= k < |TrimSpace([c])| && IsLower(TrimSpace([c])[k]);
    VariantIff([c]);
    assert HasVariant([c]);
  }

  /** Of "", "a" and "b", the two letters get upper-cased copies. */
  lemma ExampleFlags()
    ensures CountTrue(VariantFlags(["", "a", "b"]), 3) == 2
  {
    var parts := ["", "a", "b"];
    VariantFlagAt(parts, 0);
    VariantFlagAt(parts, 1);
    VariantFlagAt(parts, 2);
    assert TrimSpace("") == "";
    UpperFuzzerKey();
    assert !HasVariant(parts[0]);
    LetterHasVariant('a');
    assert parts[1] == ['a'];
    LetterHasVariant('b');
    assert parts[2] == ['b'];
  }

  /** `http://example.com/a/b` has 6 templates and so 245 probes. */
  lemma ExampleCount()
    ensures |TemplateList(Url("http", "example.com", "/a/b", ""))| == 6
    ensures |TargetsFor(Url("http", "example.com", "/a/b", ""))| == 245
  {
    ExampleSplit();
    ExampleFlags();
    TargetsCount(Url("http", "example.com", "/a/b", ""));
  }

  /* ---------------------------------------------------------------------- */
  /* No probe has an empty host                                              */
  /* ---------------------------------------------------------------------- */

  /** Every template of a URL with scheme and host is non-empty text. */
  lemma TemplatesNonEmpty(u: Url)
    requires Valid(u)
    ensures forall k :: 0 <= k < |TemplateList(u)| ==> TemplateList(u)[k] != ""
  {
    forall k | 0 <= k < |TemplateList(u)|
      ensures TemplateList(u)[k] != ""
    {
      TemplatesCount(u);
      if k < |TemplateList(u)| - 1 {
        TemplateIsSegment(u, k);
      }
    }
  }

  /** Replacing text inside a non-empty string by a non-empty payload leaves
      it non-empty. */
  lemma ReplaceFirstNonEmpty(s: string, tok: string, rep: string)
    requires s != [] && rep != []
    ensures ReplaceFirst(s, tok, rep) != []
  {
    match IndexFrom(s, tok, 0)
    case None =>
    case Some(j) =>
      assert |s[..j] + rep + s[j + |tok|..]| >= |rep|;
  }

  /** Given non-empty templates, every probe of a URL with scheme and host
      has a non-empty host. */
  lemma TargetsWithHostsNonEmpty(u: Url, templates: seq<string>)
    requires Valid(u)
    requires forall k :: 0 <= k < |templates| ==> templates[k] != ""
    ensures forall k :: 0 <= k < |TargetsWith(u, templates)| ==> TargetsWith(u, templates)[k].host != ""
  {
    CatalogShape();
    TargetsWithCount(u, templates);
    HeaderLayout(u, templates);
    forall k | 0 <= k < |TargetsWith(u, templates)|
      ensures TargetsWith(u, templates)[k].host != ""
    {
      if k >= 17 {
        var t, q := (k - 17) / 38, (k - 17) % 38;
        assert k == 17 + 38 * t + q;
        assert t < |templates|;
        PayloadLayout(u, templates, t, q);
        ReplaceFirstNonEmpty(templates[t], FuzzerKey, UrlPayloads[q]);
      } else if k >= 15 {
        assert TargetsWith(u, templates)[15 + (k - 15)].host == Serialize(WithPath(u, ""));
      } else if k >= 1 {
        assert TargetsWith(u, templates)[1 + (k - 1)].host == Serialize(u);
      }
    }
  }

  /** Every probe of a URL with scheme and host has a non-empty host. */
  lemma TargetsHostsNonEmpty(u: Url)
    requires Valid(u)
    ensures forall k :: 0 <= k < |TargetsFor(u)| ==> TargetsFor(u)[k].host != ""
  {
    TemplatesNonEmpty(u);
    TargetsWithHostsNonEmpty(u, TemplateList(u));
  }

  /* ---------------------------------------------------------------------- */
  /* The stream of all base URLs                                             */
  /* ---------------------------------------------------------------------- */

  /** Concatenating the probes of two lists of URLs is concatenating the
      two streams. */
  lemma {:induction false} ConcatMapAppend(probes: Url -> seq<Target>, a: seq<Url>, b: seq<Url>)
    ensures ConcatMap(probes, a + b) == ConcatMap(probes, a) + ConcatMap(probes, b)
    decreases |b|
  {
    if b == [] {
      assert a + b == a;
    } else {
      var c := a + b;
      assert c[..|c| - 1] == a + b[..|b| - 1];
      ConcatMapAppend(probes, a, b[..|b| - 1]);
    }
  }

  /** The stream of two lists of URLs is the first stream followed by the
      second. */
  lemma GenerateAppend(a: seq<Url>, b: seq<Url>)
    ensures Generate(a + b) == Generate(a) + Generate(b)
  {
    ConcatMapAppend(TargetsFor, a, b);
  }

  /** The stream has no empty host when no URL's probes have one. */
  lemma {:induction false} ConcatMapHostsNonEmpty(probes: Url -> seq<Target>, urls: seq<Url>)
    requires forall n, k :: 0 <= n < |urls| && 0 <= k < |probes(urls[n])| ==> probes(urls[n])[k].host != ""
    ensures forall k :: 0 <= k < |ConcatMap(probes, urls)| ==> ConcatMap(probes, urls)[k].host != ""
  {
    if urls != [] {
      ConcatMapHostsNonEmpty(probes, urls[..|urls| - 1]);
    }
  }

  /** The stream of URLs with scheme and host has no probe with an empty host. */
  lemma GenerateHostsNonEmpty(urls: seq<Url>)
    requires forall n :: 0 <= n < |urls| ==> Valid(urls[n])
    ensures forall k :: 0 <= k < |Generate(urls)| ==> Generate(urls)[k].host != ""
  {
    forall n | 0 <= n < |urls|
      ensures forall k :: 0 <= k < |TargetsFor(urls[n])| ==> TargetsFor(urls[n])[k].host != ""
    {
      TargetsHostsNonEmpty(urls[n]);
    }
    ConcatMapHostsNonEmpty(TargetsFor, urls);
  }

  /** A worker reading a stream without empty hosts, followed by the closed
      channel's zero target, processes exactly that stream and stops. */
  lemma DrainStopsAtClosed(stream: seq<Target>, rest: seq<Target>)
    requires forall k :: 0 <= k < |stream| ==> stream[k].host != ""
    ensures Drain(stream + [Closed] + rest) == stream
  {
    var s := stream + [Closed] + rest;
    var r := Drain(s);
    assert s[|stream|].host == "";
  }

  /** So a worker checks every probe of every given URL with scheme and host,
      in order, and stops only when the channel is closed. */
  lemma WorkerSeesAll(urls: seq<Url>, rest: seq<Target>)
    requires forall n :: 0 <= n < |urls| ==> Valid(urls[n])
    ensures Drain(Generate(urls) + [Closed] + rest) == Generate(urls)
  {
    GenerateHostsNonEmpty(urls);
    DrainStopsAtClosed(Generate(urls), rest);
  }
}
