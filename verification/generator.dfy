/**
 The probe targets generated for a list of base URLs, in the order the main
 loop sends them to the workers: for each URL an `Origin: null` probe, one
 probe per trusted-IP header, the two URL-rewrite probes, and then every
 template crossed with every payload.
 */
module Generator {
  import opened Strings
  import opened Urls
  import opened Catalog
  import opened Templates

  /** One request to make: the URL to fetch and at most one extra header
      (an empty key means no header). */
  datatype Target = Target(host: string, headerKey: string, headerValue: string)

  /** What a worker receives from the closed channel: the zero `Target`. */
  const Closed := Target("", "", "")

  /** One probe per header name, all on `host` with the same value. */
  function HeaderRow(host: string, names: seq<string>, value: string): (r: seq<Target>)
    ensures |r| == |names|
  {
    seq(|names|, k requires 0 <= k < |names| => Target(host, names[k], value))
  }

  /** One probe per payload: the template with its first placeholder
      replaced by the payload, and no header. */
  function PayloadRow(template: string, payloads: seq<string>): (r: seq<Target>)
    ensures |r| == |payloads|
  {
    seq(|payloads|, k requires 0 <= k < |payloads| =>
      Target(ReplaceFirst(template, FuzzerKey, payloads[k]), "", ""))
  }

  /** Templates in the outer loop, payloads in the inner loop. */
  function Crossed(templates: seq<string>, payloads: seq<string>): seq<Target> {
    if templates == [] then []
    else Crossed(templates[..|templates| - 1], payloads)
         + PayloadRow(templates[|templates| - 1], payloads)
  }

  /** The probes of one base URL, given its templates. */
  function TargetsWith(u: Url, templates: seq<string>): seq<Target> {
    var us := Serialize(u);
    [Target(us, "Origin", "null")]
    + HeaderRow(us, HeaderPayloads, HeaderValue)
    + HeaderRow(Serialize(WithPath(u, "")), UrlHeaders, u.path)
    + Crossed(templates, UrlPayloads)
  }

  /** The probes of one base URL. */
  function TargetsFor(u: Url): seq<Target> {
    TargetsWith(u, TemplateList(u))
  }

  /** The probes `probes` gives for each base URL, one URL after the other. */
  function ConcatMap(probes: Url -> seq<Target>, urls: seq<Url>): seq<Target> {
    if urls == [] then [] else ConcatMap(probes, urls[..|urls| - 1]) + probes(urls[|urls| - 1])
  }

  /** The probes of all base URLs, one URL after the other. */
  function Generate(urls: seq<Url>): seq<Target> {
    ConcatMap(TargetsFor, urls)
  }

  /* ---------------------------------------------------------------------- */
  /* The generating loops                                                   */
  /* ---------------------------------------------------------------------- */

  /** The inner loop over the payloads of one template. */
  method EmitPayloads(f: string, payloads: seq<string>, out: seq<Target>) returns (out': seq<Target>)
    ensures out' == out + PayloadRow(f, payloads)
  {
    out' := out;
    for q := 0 to |payloads|
      invariant out' == out + PayloadRow(f, payloads[..q])
    {
      var probe := Target(ReplaceFirst(f, FuzzerKey, payloads[q]), "", "");
      assert PayloadRow(f, payloads[..q + 1]) == PayloadRow(f, payloads[..q]) + [probe];
      out' := out' + [probe];
    }
    assert payloads[..|payloads|] == payloads;
  }

  /** The loop over the templates of one base URL. */
  method EmitCrossed(fl: seq<string>, payloads: seq<string>, out: seq<Target>)
    returns (out': seq<Target>)
    ensures out' == out + Crossed(fl, payloads)
  {
    out' := out;
    for t := 0 to |fl|
      invariant out' == out + Crossed(fl[..t], payloads)
    {
      assert fl[..t + 1][..t] == fl[..t];
      out' := EmitPayloads(fl[t], payloads, out');
    }
    assert fl[..|fl|] == fl;
  }

  /** A loop sending one probe per header name. */
  method EmitHeaders(host: string, names: seq<string>, value: string, out: seq<Target>)
    returns (out': seq<Target>)
    ensures out' == out + HeaderRow(host, names, value)
  {
    out' := out;
    for k := 0 to |names|
      invariant out' == out + HeaderRow(host, names[..k], value)
    {
      assert HeaderRow(host, names[..k + 1], value)
          == HeaderRow(host, names[..k], value) + [Target(host, names[k], value)];
      out' := out' + [Target(host, names[k], value)];
    }
    assert names[..|names|] == names;
  }

  /** The body of the main loop for one base URL. */
  method EmitTargetsFor(u: Url, out: seq<Target>) returns (out': seq<Target>)
    ensures out' == out + TargetsFor(u)
  {
    var us := Serialize(u);
    out' := out + [Target(us, "Origin", "null")];
    out' := EmitHeaders(us, HeaderPayloads, HeaderValue, out');
    var up := u.path;
    var stripped := Serialize(WithPath(u, ""));
    out' := EmitHeaders(stripped, UrlHeaders, up, out');
    var fl := BuildTargetList(u);
    out' := EmitCrossed(fl, UrlPayloads, out');
  }

  /** The main loop: every base URL in turn. */
  method GenerateTargets(urls: seq<Url>) returns (out: seq<Target>)
    ensures out == Generate(urls)
  {
    out := [];
    for n := 0 to |urls|
      invariant out == Generate(urls[..n])
    {
      assert urls[..n + 1][..n] == urls[..n];
      out := EmitTargetsFor(urls[n], out);
    }
    assert urls[..|urls|] == urls;
  }

  /* ---------------------------------------------------------------------- */
  /* The workers' end of the channel                                         */
  /* ---------------------------------------------------------------------- */

  /** A worker's loop: it takes targets until one with an empty host, which
      it reads as the end of the stream; the targets before it are checked. */
  function Drain(stream: seq<Target>): (r: seq<Target>)
    ensures |r| <= |stream| && r == stream[..|r|]
    ensures forall k :: 0 <= k < |r| ==> r[k].host != ""
    ensures |r| < |stream| ==> stream[|r|].host == ""
  {
    if stream == [] || stream[0].host == "" then []
    else [stream[0]] + Drain(stream[1..])
  }
}
