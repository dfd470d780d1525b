/**
 `checkTarget` after the request: the header description, the text line and
 where that line goes. A request that fails prints nothing; status 200 goes
 to standard output; any other status goes to the log unless silent.
 */
module Report {
  import opened Options
  import opened Strings
  import opened Catalog
  import opened Urls
  import opened Generator
  import opened GeneratorFacts

  /* ---------------------------------------------------------------------- */
  /* Cutting text at a separator                                             */
  /* ---------------------------------------------------------------------- */

  /** The text before and after the first `c` in `s`, if there is one. */
  function Cut(s: string, c: char): (r: Option<(string, string)>)
    ensures r.None? <==> c !in s
    ensures r.Some? ==> c !in r.value.0 && s == r.value.0 + [c] + r.value.1
  {
    if s == [] then None
    else if s[0] == c then Some(([], s[1..]))
    else match Cut(s[1..], c)
      case None => None
      case Some(p) => Some(([s[0]] + p.0, p.1))
  }

  /** Cutting finds the separator that follows a separator-free head. */
  lemma {:induction false} CutJoined(a: string, c: char, b: string)
    requires c !in a
    ensures Cut(a + [c] + b, c) == Some((a, b))
  {
    if a != [] {
      assert (a + [c] + b)[1..] == a[1..] + [c] + b;
      CutJoined(a[1..], c, b);
      assert [a[0]] + a[1..] == a;
    } else {
      assert a + [c] + b == [c] + b;
    }
  }

  /* ---------------------------------------------------------------------- */
  /* The header description                                                  */
  /* ---------------------------------------------------------------------- */

  /** `name:value` for a probe with a header, empty for one without. */
  function HeaderDescription(t: Target): (h: string)
    ensures h == [] <==> t.headerKey == []
    ensures t.headerKey != [] ==> |h| == |t.headerKey| + 1 + |t.headerValue|
  {
    if t.headerKey != "" then t.headerKey + ":" + t.headerValue else ""
  }

  /** A header name without a colon and its value are read back from the
      description by cutting it at the first colon. */
  lemma DescriptionReadsBack(t: Target)
    requires t.headerKey != [] && ':' !in t.headerKey
    ensures Cut(HeaderDescription(t), ':') == Some((t.headerKey, t.headerValue))
  {
    CutJoined(t.headerKey, ':', t.headerValue);
  }

  /** No header name the generator uses contains a colon. */
  lemma HeaderNamesHaveNoColon()
    ensures ':' !in "Origin"
    ensures forall k :: 0 <= k < |HeaderPayloads| ==> ':' !in HeaderPayloads[k]
    ensures forall k :: 0 <= k < |UrlHeaders| ==> ':' !in UrlHeaders[k]
  {
  }

  /** Every header the generator sends can be read back from its
      description: the Origin, trusted-IP and rewrite header names have no
      colon, and the payload probes have no header. */
  lemma GeneratedDescriptionsReadBack(u: Url, templates: seq<string>, k: nat)
    requires k < |TargetsWith(u, templates)|
    ensures var t := TargetsWith(u, templates)[k];
            t.headerKey == [] || Cut(HeaderDescription(t), ':') == Some((t.headerKey, t.headerValue))
  {
    var t := TargetsWith(u, templates)[k];
    TargetsWithCount(u, templates);
    HeaderLayout(u, templates);
    HeaderNamesHaveNoColon();
    if k >= 17 {
      var i, q := (k - 17) / 38, (k - 17) % 38;
      assert k == 17 + 38 * i + q;
      PayloadLayout(u, templates, i, q);
    } else {
      if k >= 15 {
        assert t.headerKey == UrlHeaders[k - 15];
      } else if k >= 1 {
        assert t.headerKey == HeaderPayloads[k - 1];
      }
      DescriptionReadsBack(t);
    }
  }

  /* ---------------------------------------------------------------------- */
  /* Decimal status codes                                                    */
  /* ---------------------------------------------------------------------- */

  predicate IsDigit(c: char) {
    '0' <= c <= '9'
  }

  function DigitChar(d: nat): char
    requires d < 10
  {
    ['0', '1', '2', '3', '4', '5', '6', '7', '8', '9'][d]
  }

  function DigitValue(c: char): nat {
    if IsDigit(c) then (c - '0') as nat else 0
  }

  /** The decimal digits of `n`, most significant first, without leading zeros. */
  function Decimal(n: nat): (r: string)
    ensures r != []
    ensures forall k :: 0 <= k < |r| ==> IsDigit(r[k])
    ensures |r| > 1 ==> r[0] != '0'
  {
    if n < 10 then [DigitChar(n)] else Decimal(n / 10) + [DigitChar(n % 10)]
  }

  /** The value of a string of decimal digits. */
  function DecimalValue(s: string): nat {
    if s == [] then 0 else 10 * DecimalValue(s[..|s| - 1]) + DigitValue(s[|s| - 1])
  }

  lemma {:induction false} DecimalRoundTrip(n: nat)
    ensures DecimalValue(Decimal(n)) == n
  {
    var r := Decimal(n);
    if n >= 10 {
      DecimalRoundTrip(n / 10);
      assert r[..|r| - 1] == Decimal(n / 10);
    }
  }

  /** `%v` of an int: its decimal digits, after a minus sign when negative. */
  function FormatInt(n: int): (r: string)
    ensures r != [] && '\t' !in r
    ensures r[0] == '-' <==> n < 0
  {
    if n < 0 then "-" + Decimal(-n) else Decimal(n)
  }

  /** Reading a formatted int back. */
  function ParseInt(s: string): int {
    if s != [] && s[0] == '-' then -(DecimalValue(s[1..]) as int) else DecimalValue(s)
  }

  lemma IntRoundTrip(n: int)
    ensures ParseInt(FormatInt(n)) == n
  {
    if n < 0 {
      assert FormatInt(n)[1..] == Decimal(-n);
      DecimalRoundTrip(-n);
    } else {
      DecimalRoundTrip(n);
    }
  }

  /* ---------------------------------------------------------------------- */
  /* The text line and its routing                                           */
  /* ---------------------------------------------------------------------- */

  /** The text line: code, URL and header description, separated by tabs. */
  function FormatLine(code: int, host: string, h: string): (line: string)
    ensures |line| == |FormatInt(code)| + |host| + |h| + 2
  {
    FormatInt(code) + "\t" + host + "\t" + h
  }

  /** The three fields of a text line, if it has two tabs. */
  function ParseLine(line: string): Option<(int, string, string)> {
    match Cut(line, '\t')
    case None => None
    case Some(p) =>
      match Cut(p.1, '\t')
      case None => None
      case Some(q) => Some((ParseInt(p.0), q.0, q.1))
  }

  /** When the URL has no tab the line reads back as code, URL and header
      description. */
  lemma LineReadsBack(code: int, host: string, h: string)
    requires '\t' !in host
    ensures ParseLine(FormatLine(code, host, h)) == Some((code, host, h))
  {
    var c := FormatInt(code);
    assert FormatLine(code, host, h) == c + ['\t'] + (host + ['\t'] + h);
    CutJoined(c, '\t', host + ['\t'] + h);
    CutJoined(host, '\t', h);
    IntRoundTrip(code);
  }

  /** What the request gave: a transport error, or a status code. */
  datatype Outcome = Failed | Status(code: int)

  /** What `checkTarget` prints, and where. */
  datatype Emission = Nothing | Stdout(line: string) | Log(line: string)

  /** The routing of `checkTarget` in text mode. */
  function CheckTarget(t: Target, outcome: Outcome, silent: bool): (e: Emission)
    ensures e.Stdout? <==> outcome.Status? && outcome.code == 200
    ensures e.Log? <==> outcome.Status? && outcome.code != 200 && !silent
    ensures e.Nothing? <==> outcome.Failed? || (outcome.code != 200 && silent)
    ensures !e.Nothing? ==> e.line == FormatLine(outcome.code, t.host, HeaderDescription(t))
  {
    match outcome
    case Failed => Nothing
    case Status(code) =>
      var line := FormatLine(code, t.host, HeaderDescription(t));
      if code != 200 then (if silent then Nothing else Log(line))
      else Stdout(line)
  }

  /** Silent mode only drops what would go to the log. */
  lemma SilentOnlyDropsLog(t: Target, outcome: Outcome)
    ensures CheckTarget(t, outcome, true)
            == (if CheckTarget(t, outcome, false).Log? then Nothing else CheckTarget(t, outcome, false))
  {
  }

  /** Whatever is printed for a probe whose URL has no tab reads back as the
      status code, the URL and the header; when the header name has no colon,
      so do the name and the value. */
  lemma PrintedLineReadsBack(t: Target, code: int, silent: bool)
    requires '\t' !in t.host
    requires !CheckTarget(t, Status(code), silent).Nothing?
    ensures ParseLine(CheckTarget(t, Status(code), silent).line)
            == Some((code, t.host, HeaderDescription(t)))
    ensures t.headerKey != [] && ':' !in t.headerKey ==>
              Cut(ParseLine(CheckTarget(t, Status(code), silent).line).value.2, ':')
              == Some((t.headerKey, t.headerValue))
  {
    LineReadsBack(code, t.host, HeaderDescription(t));
    if t.headerKey != [] && ':' !in t.headerKey {
      DescriptionReadsBack(t);
    }
  }
}
