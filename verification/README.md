# bypass-403 probe-target generator, in Dafny

bypass-403 is a command-line tool. It takes base URLs and sends many
variants of a request for each one, looking for a variant the server answers
with 200 instead of 403. This project models the tool's target generator:
the pure code that decides, for each base URL, which requests ("targets") are
made and in which order. It also models the two small decisions
`checkTarget` makes once a response has arrived.

For every base URL the generator emits these targets, in this order:

1. one target with header `Origin: null` on the URL;
2. one target per trusted-IP header name (14 of them), each with value
   `127.0.0.1`, on the URL;
3. two URL-rewrite targets (`X-Original-URL`, `X-rewrite-url`) on the URL
   with its path removed, with the original path as the header's value;
4. the templates of `buildTargetList` crossed with the 38 obfuscation
   payloads, templates in the outer loop and payloads in the inner loop.
   Each of these targets is the template with its first `FUZZ` replaced by
   the payload, and it has no header.

A template is the base URL with `FUZZ` put in one place of its path:

- For each `/`-separated segment, the segment is trimmed and prefixed with
  `FUZZ`.
- If upper-casing that text changes it, an upper-cased copy follows.
- A last template has `FUZZ` written straight after the whole path.

Modules, one per file:

- `Options` (`options.dfy`): the optional result of a search.
- `Strings` (`strings.dfy`): the Go `strings` operations the generator uses.
  These are `Split`/`Join` on "/", `TrimSpace` with Go's white-space set,
  ASCII `ToUpper`, and `Replace(s, tok, rep, 1)` as `ReplaceFirst`.
- `Urls` (`urls.dfy`): a URL as scheme, host, path and suffix (query and
  fragment), and `URL.String` as `Serialize`.
- `Catalog` (`catalog.dfy`): `fuzzerKey`, `headerValue`, `headerPayloads`,
  `urlHeader` and `urlPayloads`, entry for entry.
- `Templates` (`templates.dfy`): `buildTargetList` as a method that follows
  the Go loop, and the reference definition `TemplateList` it computes.
- `TemplateFacts` (`template_facts.dfy`): the count, positions and shape of
  the templates, and where a payload lands.
- `Generator` (`generator.dfy`): the per-URL emission loops of `main` as
  methods, and the reference stream `Generate`. It also has the worker's
  read loop (`Drain`), which stops at a target with an empty host.
- `GeneratorFacts` (`generator_facts.dfy`): the order and count of the
  targets per URL, the 245-target example, non-empty hosts, and that a
  worker sees the whole stream.
- `Report` (`report.dfy`): `checkTarget`'s header description, its text line
  and the routing between standard output, the log and nothing.

For `http://example.com/a/b` the segments are "", "a" and "b".
`strings.ToUpper("FUZZa")` is "FUZZA", so "a" and "b" each get an upper-cased
copy. That gives 6 templates and 17 + 38 · 6 = 245 targets
(`GeneratorFacts.ExampleCount`).

## Model

| member | source | states |
|---|---|---|
| Strings.TrimSpace | main.go:174 | the trimmed segment is no longer than the segment, and it neither starts nor ends with a character of Go's white-space set |
| Strings.TrimSpaceInfix | main.go:174 | the trimmed segment is a contiguous part of the segment, and only white space is cut on either side of it |
| Strings.TrimSpaceKeepsOut | main.go:174 | trimming introduces no character, so a segment without '/' still has none after trimming |
| Strings.ToUpper | main.go:178 | upper-casing keeps the length of the text; the character mapping is stated by `Strings.ToUpperAt` |
| Strings.ToUpperAt | main.go:178 | upper-casing maps every character on its own, to its ASCII upper case |
| Strings.ToUpperChanges | main.go:178-179 | upper-casing changes a text exactly when the text holds a lower-case letter |
| Strings.ToUpperIdempotent | main.go:178-180 | an upper-cased copy is unchanged by upper-casing it again |
| Strings.Split | main.go:169 | splitting on '/' gives one more piece than there are slashes, no piece contains '/', and joining the pieces with '/' restores the path |
| Strings.SplitJoin | main.go:176 | splitting a '/'-join of slash-free pieces gives back exactly those pieces |
| Strings.Join | main.go:176-181 | joining the pieces with '/' has no contract of its own: `Strings.SplitJoin` is its inverse, `Strings.JoinUpdate` its update fact and `Strings.JoinEnds` its ends |
| Strings.JoinEnds | main.go:176-181 | the joined path starts with the first piece and ends with the last one |
| Strings.JoinUpdate | main.go:172-176 | replacing one piece changes the joined path only at that piece's place; the text before and after it is kept |
| Strings.ReplaceFirst | main.go:157 | the leftmost occurrence of the placeholder is replaced; the text before it and after it, later placeholders included, is kept; a text without the placeholder is returned unchanged |
| Strings.ReplaceAfterClean | main.go:157 | when the placeholder does not occur in the text before a placeholder, replacing puts the payload exactly there and keeps both sides |
| Urls.Serialize | main.go:140 | a URL with scheme and host is written as scheme "://" host, then a '/' when the path is relative, then path and suffix; the text is never empty |
| Urls.WithPath | main.go:146-148 | changing the path keeps scheme, host and suffix, and keeps a URL with scheme and host valid |
| Catalog.CatalogShape | main.go:47-108 | the lists have 14, 2 and 38 entries; no payload or header name is empty; the payload list repeats entries ("&", "/", "../"), so it is a list and not a set |
| Templates.VariantFlagAt | main.go:178-179 | a segment is flagged for an upper-cased copy exactly when upper-casing its fuzzed text changes it |
| Templates.AddSegmentTemplates | main.go:172-183 | one round of the loop appends the fuzzed template of segment i and, only if upper-casing changes it, the upper-cased template |
| Templates.AllSegmentTemplates | main.go:171-184 | the segment loop produces the slots of all segments, in segment order |
| Templates.BuildTargetList | main.go:168-188 | the method computes the reference template list: all segment templates, then the appended-placeholder template |
| TemplateFacts.TemplatesCount | main.go:168-188 | a path of N segments, K of which get a copy, gives N + 1 + K templates, so between N + 1 and 2N + 1; the last one is the appended-placeholder template |
| TemplateFacts.UpperFuzzerKey | main.go:178 | upper-casing keeps the placeholder `FUZZ` |
| TemplateFacts.VariantIff | main.go:174-179 | a segment gets an upper-cased copy exactly when its trimmed text holds a lower-case ASCII letter |
| TemplateFacts.TemplateAt | main.go:171-183 | the template of segment i is at position i + (number of copies among earlier segments); its upper-cased copy, when there is one, comes right after it |
| TemplateFacts.NoVariantNext | main.go:171-187 | when segment i gets no upper-cased copy, the template right after segment i's is segment i+1's fuzzed template, or, for the last segment, the appended-placeholder template, which is then the last of the list |
| TemplateFacts.TemplateIsSegment | main.go:171-183 | every template except the last is the base URL with one segment replaced by its fuzzed text, upper-cased only for a segment that has a copy |
| TemplateFacts.TemplateSegments | main.go:172-176 | re-splitting a template's path changes segment i only, to `FUZZ` + the trimmed segment (or its upper-cased copy); the other segments, scheme, host and suffix are unchanged |
| TemplateFacts.PayloadLandsInSegment | main.go:157 | replacing the placeholder in segment i's template puts the payload just before that segment's text; everything else is unchanged, provided no `FUZZ` occurs earlier in the URL |
| TemplateFacts.AppendedShape | main.go:185-187 | the last template is the path with `FUZZ` written straight after it, with no '/' in between, before the query; for a URL with scheme and host and an empty path it is scheme "://" host "/" `FUZZ`, then the query |
| TemplateFacts.PayloadLandsAfterPath | main.go:186 | replacing the placeholder of the last template puts the payload straight after the path, provided no `FUZZ` occurs earlier |
| Generator.EmitPayloads | main.go:156-158 | the inner loop emits one header-less target per payload, in catalog order, with the first placeholder replaced |
| Generator.EmitCrossed | main.go:155-159 | the nested loops emit the templates crossed with the payloads, templates outermost |
| Generator.EmitHeaders | main.go:142-144 | a header loop emits one target per header name, in catalog order, all on the same host with the same value |
| Generator.EmitTargetsFor | main.go:140-159 | the loop body for one base URL emits exactly the reference targets of that URL |
| Generator.GenerateTargets | main.go:139-161 | the main loop emits the reference stream of all base URLs |
| Generator.Drain | main.go:128-133 | a worker processes a prefix of the stream without empty hosts, and stops only at the end of the stream or at a target with an empty host |
| GeneratorFacts.CrossedCount | main.go:155-159 | crossing gives one target per template and payload |
| GeneratorFacts.CrossedAt | main.go:155-159 | the target of template t and payload q is at t · (number of payloads) + q |
| GeneratorFacts.HeaderLayout | main.go:140-152 | target 0 is `Origin: null` on the URL; targets 1 to 14 are the trusted-IP headers in catalog order with value 127.0.0.1; targets 15 and 16 are the rewrite headers on the path-less URL, with the path as value |
| GeneratorFacts.PayloadLayout | main.go:154-159 | target 17 + 38t + q is template t with its first placeholder replaced by payload q, with no header |
| GeneratorFacts.TargetsWithCount | main.go:139-159 | a base URL with T templates gives 17 + 38T targets |
| GeneratorFacts.TargetsCount | main.go:139-188 | a base URL gives 17 + 38(N + 1 + K) targets, for N segments of which K get an upper-cased copy |
| GeneratorFacts.ExampleCount | main.go:139-188 | `http://example.com/a/b` has 6 templates and 245 targets |
| GeneratorFacts.TemplatesNonEmpty | main.go:168-188 | no template of a URL with scheme and host is empty |
| GeneratorFacts.ReplaceFirstNonEmpty | main.go:157 | replacing with a non-empty payload never empties a non-empty template |
| GeneratorFacts.TargetsHostsNonEmpty | main.go:139-159 | every target of a URL with scheme and host has a non-empty host |
| GeneratorFacts.GenerateAppend | main.go:139-161 | the stream for two lists of URLs is the first list's stream followed by the second's |
| GeneratorFacts.GenerateHostsNonEmpty | main.go:139-161 | the stream for URLs with scheme and host has no target with an empty host |
| GeneratorFacts.DrainStopsAtClosed | main.go:128-133 | a worker reading a stream without empty hosts, then the closed channel's zero target, processes exactly that stream |
| GeneratorFacts.WorkerSeesAll | main.go:128-164 | a worker processes every generated target in order, and stops only at the closed channel |
| Report.HeaderDescription | main.go:206-209 | the description is empty exactly when the target has no header, and otherwise is one character longer than name and value together |
| Report.DescriptionReadsBack | main.go:206-209 | cutting the description at its first ':' gives back the header name and value, when the name has no ':' |
| Report.HeaderNamesHaveNoColon | main.go:47-67 | no header name of the catalogs, and not `Origin`, contains a ':' |
| Report.GeneratedDescriptionsReadBack | main.go:141-157 | for every target of a base URL, either there is no header, or cutting the description at its first ':' gives back the header name and value |
| Report.IntRoundTrip | main.go:219 | the decimal text of the status code reads back as the code |
| Report.FormatLine | main.go:219 | the line is as long as the code's text, the URL and the header description together, plus the two tabs between them; `Report.LineReadsBack` is its inverse |
| Report.LineReadsBack | main.go:219 | the tab-separated line reads back as code, URL and header description, when the URL has no tab |
| Report.CheckTarget | main.go:199-228 | a failed request prints nothing; status 200 goes to standard output; any other status goes to the log, unless silent; anything printed is the text line |
| Report.SilentOnlyDropsLog | main.go:221-226 | silent mode only suppresses what would go to the log |
| Report.PrintedLineReadsBack | main.go:206-227 | whatever is printed reads back as the status code, the URL and the header name and value |

## Left out

- `client.go`, the HTTP request: it is network I/O. The request's result is
  an `Outcome` parameter of `Report.CheckTarget`: a transport error or a
  status code.
- The goroutine pool, the unbuffered channel, `close` and the `WaitGroup`
  (main.go:121-137, 163-164) exist for concurrency. The stream is a sequence.
  A worker is modelled only as the single reader `Drain`, and closing the
  channel is the zero target `Closed` at the end of the stream.
- `url.Parse` and `URL.String` escaping, user info, opaque URLs and
  `copyUrl`'s fatal re-parse (main.go:191-197) are library behaviour. A URL
  is a record, and `Serialize` writes it without escaping. It keeps the one
  rule the templates depend on: a '/' goes between host and relative path.
  `URL.String`'s "./" prefix for a relative path whose first segment holds
  a ':' is not modelled.
- Strings.ToUpper: only ASCII letters are upper-cased. Go's `strings.ToUpper`
  also maps other Unicode letters. The contract of `ToUpper` itself only
  fixes the length; `Strings.ToUpperAt` states the character mapping.
- JSON output (main.go:211-217) is a library serialisation.
- The newline `Println` adds to each line is not modelled.
- Argument and standard-input parsing, `isValidUrl` and the banner are CLI
  code. Only base URLs that pass this validation have both a scheme and a
  host (`Urls.Valid`). The host guarantee above is stated for such URLs.
- TemplateFacts.PayloadLandsInSegment: stated for URLs where `FUZZ` does not
  already occur before the placeholder. Otherwise the payload replaces that
  earlier `FUZZ`, and `Strings.ReplaceFirst` describes where it goes.
- Path text: the model's `path` is one text that is both split (main.go:169)
  and written out (`Serialize`). Go splits, trims and upper-cases the
  decoded `u.Path`, works on bytes, and writes the escaped form. The model
  covers only paths whose written and decoded forms agree and that are valid
  UTF-8. Three effects are not modelled: an escaped `%2F` becomes an extra
  split point in Go; a decoded space such as `%20` is trimmed by
  `TrimSpace`; and `strings.ToUpper` turns each invalid UTF-8 byte into
  U+FFFD, which gives that segment an upper-cased copy that differs.
- TemplateFacts.TemplateSegments: the round trip goes through `Serialize`'s
  path field, not through re-parsing the serialised text, because parsing is
  left out.
