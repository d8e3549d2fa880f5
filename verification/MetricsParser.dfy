/** The reader of the Prometheus text format that feeds the admission controller. */
module MetricsParser {
  import opened Wrappers
  import opened GoStrings

  datatype ModelMetrics = ModelMetrics(
    cacheUsagePct: real,
    requestsRunning: int,
    requestsWaiting: int,
    hasCacheUsage: bool)

  const NO_METRICS := ModelMetrics(0.0, 0, 0, false)

  /** strconv.ParseFloat, as far as it yields a real number. */
  type FloatReader = string -> Option<real>

  // ---- One line ---------------------------------------------------------------------

  predicate EndsName(c: char) { c == '{' || c == ' ' || c == '\t' }

  predicate EndsValue(c: char) { c == ' ' || c == '\t' }

  predicate ClosesLabels(c: char) { c == '}' }

  /** Metric name without labels, and value; None for a line of another shape. */
  function SplitMetricLine(line: string): Option<(string, string)> {
    if "#" <= line then None
    else
      var i := FirstOf(line, EndsName);
      if i == 0 || i == |line| then None
      else
        var rest := line[i..];
        var end := FirstOf(rest, ClosesLabels);
        if rest[0] == '{' && end == |rest| then None
        else
          var value := TrimSpace(if rest[0] == '{' then rest[end + 1..] else rest);
          if value == "" then None else Some((line[..i], value[..FirstOf(value, EndsValue)]))
  }

  function NormalizeMetricName(name: string): string {
    if "vllm:" <= name then name[5..] else if "vllm_" <= name then name[5..] else name
  }

  datatype Gauge = CacheUsage | Running | Waiting

  function GaugeName(g: Gauge): string {
    match g
    case CacheUsage => "gpu_cache_usage_perc"
    case Running => "num_requests_running"
    case Waiting => "num_requests_waiting"
  }

  function GaugeOf(name: string): Option<Gauge> {
    var n := NormalizeMetricName(name);
    if n == GaugeName(CacheUsage) then Some(CacheUsage)
    else if n == GaugeName(Running) then Some(Running)
    else if n == GaugeName(Waiting) then Some(Waiting)
    else None
  }

  /** The last value read for each gauge, if any. */
  datatype Gauges = Gauges(cache: Option<real>, running: Option<int>, waiting: Option<int>)

  const NOTHING_READ := Gauges(None, None, None)

  /** Go's conversion of a float to an integer truncates toward zero. */
  function Truncate(v: real): int { if v >= 0.0 then v.Floor else -(-v).Floor }

  /** Values up to 1.0 are fractions and become percentages. */
  function Percent(v: real): real { if v <= 1.0 then v * 100.0 else v }

  function Store(gs: Gauges, g: Gauge, v: real): Gauges {
    match g
    case CacheUsage => gs.(cache := Some(Percent(v)))
    case Running => gs.(running := Some(Truncate(v)))
    case Waiting => gs.(waiting := Some(Truncate(v)))
  }

  /** The gauge and value a line carries. */
  function ReadLine(parse: FloatReader, raw: string): Option<(Gauge, real)> {
    var line := TrimSpace(raw);
    if line == "" || "#" <= line then None
    else
      var parts := SplitMetricLine(line);
      if parts.None? then None
      else
        var g := GaugeOf(parts.value.0);
        if g.None? then None
        else
          var v := parse(parts.value.1);
          if v.None? then None else Some((g.value, v.value))
  }

  function Absorb(parse: FloatReader, gs: Gauges, raw: string): Gauges {
    var r := ReadLine(parse, raw);
    if r.None? then gs else Store(gs, r.value.0, r.value.1)
  }

  function ReadAll(parse: FloatReader, lines: seq<string>): Gauges {
    if lines == [] then NOTHING_READ
    else Absorb(parse, ReadAll(parse, lines[..|lines| - 1]), lines[|lines| - 1])
  }

  function ToMetrics(gs: Gauges): ModelMetrics {
    ModelMetrics(if gs.cache.Some? then gs.cache.value else 0.0,
                 if gs.running.Some? then gs.running.value else 0,
                 if gs.waiting.Some? then gs.waiting.value else 0,
                 gs.cache.Some?)
  }

  // ---- The whole body ---------------------------------------------------------------

  const LONGEST_LINE := 1_048_576

  predicate TooLong(line: string) { |line| >= LONGEST_LINE }

  /** The scanner stops for good at the first line that does not fit its buffer. */
  function UpToTooLong(lines: seq<string>): seq<string> {
    if lines == [] || TooLong(lines[0]) then [] else [lines[0]] + UpToTooLong(lines[1..])
  }

  /** A trailing newline makes one more, empty line here, which is skipped like any blank line. */
  function ScannedLines(body: string): seq<string> { UpToTooLong(Split(body, '\n')) }

  function Gauged(parse: FloatReader, body: string): Gauges { ReadAll(parse, ScannedLines(body)) }

  /** One turn of the scanner loop: a line that does not parse leaves the metrics alone. */
  method TakeLine(parse: FloatReader, m: ModelMetrics, raw: string, ghost gs: Gauges) returns (next: ModelMetrics)
    requires m == ToMetrics(gs)
    ensures next == ToMetrics(Absorb(parse, gs, raw))
  {
    var line := TrimSpace(raw);
    if line == "" || "#" <= line {
      return m;
    }
    var parts := SplitMetricLine(line);
    if parts.None? {
      return m;
    }
    var name := NormalizeMetricName(parts.value.0);
    var v := parse(parts.value.1);
    if v.None? {
      return m;
    }
    if name == GaugeName(CacheUsage) {
      next := m.(cacheUsagePct := if v.value <= 1.0 then v.value * 100.0 else v.value, hasCacheUsage := true);
    } else if name == GaugeName(Running) {
      next := m.(requestsRunning := Truncate(v.value));
    } else if name == GaugeName(Waiting) {
      next := m.(requestsWaiting := Truncate(v.value));
    } else {
      next := m;
    }
  }

  lemma ReadAllNext(parse: FloatReader, lines: seq<string>, n: nat)
    requires n < |lines|
    ensures ReadAll(parse, lines[..n + 1]) == Absorb(parse, ReadAll(parse, lines[..n]), lines[n])
  {
    assert lines[..n + 1][..n] == lines[..n];
  }

  method ParsePrometheusMetrics(parse: FloatReader, body: string) returns (m: ModelMetrics)
    ensures m == ToMetrics(Gauged(parse, body))
  {
    m := NO_METRICS;
    var lines := ScannedLines(body);
    assert m == ToMetrics(ReadAll(parse, lines[..0]));
    for n := 0 to |lines|
      invariant m == ToMetrics(ReadAll(parse, lines[..n]))
    {
      hide *;
      ReadAllNext(parse, lines, n);
      m := TakeLine(parse, m, lines[n], ReadAll(parse, lines[..n]));
    }
    assert lines[..|lines|] == lines;
  }

  // ---- Concatenation ----------------------------------------------------------------

  /** What the second body says wins. */
  function Merge(a: Gauges, b: Gauges): Gauges {
    Gauges(if b.cache.Some? then b.cache else a.cache,
           if b.running.Some? then b.running else a.running,
           if b.waiting.Some? then b.waiting else a.waiting)
  }

  lemma AbsorbMerges(parse: FloatReader, a: Gauges, b: Gauges, raw: string)
    ensures Absorb(parse, Merge(a, b), raw) == Merge(a, Absorb(parse, b, raw))
  {
    var r := ReadLine(parse, raw);
    if r.Some? {
      StoreMerges(a, b, r.value.0, r.value.1);
    }
  }

  lemma StoreMerges(a: Gauges, b: Gauges, g: Gauge, v: real)
    ensures Store(Merge(a, b), g, v) == Merge(a, Store(b, g, v))
  {
  }

  lemma {:induction false} ReadAllConcat(parse: FloatReader, xs: seq<string>, ys: seq<string>)
    ensures ReadAll(parse, xs + ys) == Merge(ReadAll(parse, xs), ReadAll(parse, ys))
  {
    if ys == [] {
      assert xs + ys == xs;
    } else {
      var before, last := ys[..|ys| - 1], ys[|ys| - 1];
      var all := xs + ys;
      assert all[..|all| - 1] == xs + before && all[|all| - 1] == last;
      ReadAllConcat(parse, xs, before);
      AbsorbMerges(parse, ReadAll(parse, xs), ReadAll(parse, before), last);
    }
  }

  /** The first character either ends the first part or belongs to it. */
  lemma SplitNext(x: char, s: string, sep: char)
    ensures Split("", sep) == [""]
    ensures Split([x] + s, sep) ==
            if x == sep then [""] + Split(s, sep) else [[x] + Split(s, sep)[0]] + Split(s, sep)[1..]
  {
    assert ([x] + s)[1..] == s;
  }

  lemma {:induction false} SplitConcat(a: string, b: string, sep: char)
    ensures Split(a + [sep] + b, sep) == Split(a, sep) + Split(b, sep)
  {
    hide Split;
    if a == "" {
      SplitNext(sep, b, sep);
      assert a + [sep] + b == [sep] + b;
    } else {
      SplitConcat(a[1..], b, sep);
      SplitNext(a[0], a[1..], sep);
      SplitNext(a[0], a[1..] + [sep] + b, sep);
      assert a == [a[0]] + a[1..];
      assert a + [sep] + b == [a[0]] + (a[1..] + [sep] + b);
    }
  }

  lemma {:induction false} AllLinesFit(xs: seq<string>, ys: seq<string>)
    requires forall x | x in xs :: !TooLong(x)
    ensures UpToTooLong(xs + ys) == xs + UpToTooLong(ys)
  {
    if xs == [] {
      assert xs + ys == ys;
    } else {
      assert (xs + ys)[1..] == xs[1..] + ys;
      assert xs[0] in xs;
      AllLinesFit(xs[1..], ys);
    }
  }

  lemma {:induction false} SomeLineDoesNotFit(xs: seq<string>, ys: seq<string>, i: nat)
    requires i < |xs| && TooLong(xs[i])
    ensures UpToTooLong(xs + ys) == UpToTooLong(xs)
  {
    if i > 0 {
      assert (xs + ys)[1..] == xs[1..] + ys;
      SomeLineDoesNotFit(xs[1..], ys, i - 1);
    }
  }

  /** Reading two bodies one after the other is the right-biased merge of reading each, unless
      the first has a line that does not fit: then nothing after that line is read. */
  lemma ConcatenationMerges(parse: FloatReader, a: string, b: string)
    ensures Gauged(parse, a + "\n" + b) ==
            if exists line :: line in Split(a, '\n') && TooLong(line) then Gauged(parse, a)
            else Merge(Gauged(parse, a), Gauged(parse, b))
  {
    assert a + "\n" + b == a + ['\n'] + b;
    SplitConcat(a, b, '\n');
    var lines := Split(a, '\n');
    if i: nat :| i < |lines| && TooLong(lines[i]) {
      SomeLineDoesNotFit(lines, Split(b, '\n'), i);
    } else {
      AllLinesFit(lines, Split(b, '\n'));
      AllLinesFit(lines, []);
      assert lines + [] == lines;
      ReadAllConcat(parse, lines, ScannedLines(b));
    }
  }

  // ---- A printer, and the parser as its inverse -------------------------------------

  datatype Prefix = Colon | Underscore | Bare

  function PrefixText(p: Prefix): string {
    match p
    case Colon => "vllm:"
    case Underscore => "vllm_"
    case Bare => ""
  }

  /** A rendered sample: labels and timestamp are optional, `gap` is the blank before the value. */
  datatype Sample = Sample(
    prefix: Prefix,
    gauge: Gauge,
    labels: Option<string>,
    gap: string,
    value: string,
    timestamp: Option<string>)

  predicate Blank(s: string) { forall c | c in s :: EndsValue(c) }

  predicate Token(s: string) { s != "" && forall c | c in s :: !IsSpace(c) }

  predicate Printable(s: Sample) {
    && (s.labels.Some? ==> '}' !in s.labels.value && '\n' !in s.labels.value)
    && Blank(s.gap) && (s.labels.None? ==> s.gap != "")
    && Token(s.value) && (s.timestamp.Some? ==> Token(s.timestamp.value))
  }

  function Tail(s: Sample): string {
    s.value + if s.timestamp.Some? then " " + s.timestamp.value else ""
  }

  function LabelText(s: Sample): string {
    if s.labels.Some? then "{" + s.labels.value + "}" else ""
  }

  function Name(s: Sample): string { PrefixText(s.prefix) + GaugeName(s.gauge) }

  function Render(s: Sample): string { Name(s) + (LabelText(s) + (s.gap + Tail(s))) }

  /** A body is printed samples mixed with lines the parser passes over. */
  datatype Line = Metric(sample: Sample) | Noise(text: string)

  predicate Acceptable(parse: FloatReader, l: Line) {
    match l
    case Metric(s) => Printable(s) && |Render(s)| < 1_048_576
    case Noise(text) => ReadLine(parse, text) == None && '\n' !in text && |text| < 1_048_576
  }

  function Text(l: Line): string { if l.Metric? then Render(l.sample) else l.text }

  function Texts(ls: seq<Line>): seq<string> {
    if ls == [] then [] else Texts(ls[..|ls| - 1]) + [Text(ls[|ls| - 1])]
  }

  /** The last parseable value of each gauge. */
  function Expected(parse: FloatReader, ls: seq<Line>): Gauges {
    if ls == [] then NOTHING_READ
    else
      var before, l := Expected(parse, ls[..|ls| - 1]), ls[|ls| - 1];
      if l.Metric? && parse(l.sample.value).Some? then Store(before, l.sample.gauge, parse(l.sample.value).value)
      else before
  }

  predicate Plain(c: char) { c == '_' || c == ':' || 'a' <= c <= 'z' }

  lemma GaugeNamesArePlain(g: Gauge)
    ensures GaugeName(g) != "" && forall c | c in GaugeName(g) :: Plain(c)
    ensures GaugeName(g)[0] == if g == CacheUsage then 'g' else 'n'
  {
    match g
    case CacheUsage =>
    case Running =>
    case Waiting =>
  }

  lemma GaugeNamesDiffer(g: Gauge, h: Gauge)
    ensures GaugeName(g) == GaugeName(h) <==> g == h
  {
    assert GaugeName(CacheUsage)[0] == 'g' && GaugeName(Running)[0] == 'n' && GaugeName(Waiting)[0] == 'n';
    assert GaugeName(Running)[13] == 'r' && GaugeName(Waiting)[13] == 'w';
  }

  lemma PrefixIsStripped(p: Prefix, name: string)
    requires name != "" && name[0] != 'v'
    ensures NormalizeMetricName(PrefixText(p) + name) == name
  {
    var s := PrefixText(p) + name;
    match p
    case Bare => assert s == name;
    case Colon => assert s[..5] == "vllm:" && s[5..] == name;
    case Underscore => assert s[4] == '_' && s[..5] == "vllm_" && s[5..] == name;
  }

  lemma NamesAreRecognised(s: Sample)
    ensures GaugeOf(Name(s)) == Some(s.gauge)
  {
    GaugeNamesArePlain(s.gauge);
    PrefixIsStripped(s.prefix, GaugeName(s.gauge));
    GaugeNamesDiffer(s.gauge, CacheUsage);
    GaugeNamesDiffer(s.gauge, Running);
    GaugeNamesDiffer(s.gauge, Waiting);
  }

  lemma NamesArePlain(s: Sample)
    ensures Name(s) != "" && forall c | c in Name(s) :: Plain(c)
    ensures Plain(Name(s)[0])
  {
    GaugeNamesArePlain(s.gauge);
    forall c | c in Name(s) ensures Plain(c) {
      if c !in GaugeName(s.gauge) {
        assert c in PrefixText(s.prefix);
      }
    }
    assert Name(s)[0] in Name(s);
  }

  lemma TrimLeftBlanks(blank: string, s: string)
    requires Blank(blank) && s != "" && !IsSpace(s[0])
    ensures TrimLeft(blank + s) == s
  {
    if blank == "" {
      assert blank + s == s;
    } else {
      assert (blank + s)[1..] == blank[1..] + s;
      assert blank[0] in blank;
      TrimLeftBlanks(blank[1..], s);
    }
  }

  lemma TailIsTrimmed(s: Sample)
    requires Printable(s)
    ensures Tail(s) != "" && !IsSpace(Tail(s)[0]) && !IsSpace(Tail(s)[|Tail(s)| - 1])
    ensures Tail(s)[..FirstOf(Tail(s), EndsValue)] == s.value
  {
    var t := Tail(s);
    assert t[0] == s.value[0] && s.value[0] in s.value;
    if s.timestamp.Some? {
      var ts := s.timestamp.value;
      assert t[|t| - 1] == ts[|ts| - 1] && ts[|ts| - 1] in ts;
      assert t[|s.value|] == ' ';
    } else {
      assert t == s.value;
      assert t[|t| - 1] in s.value;
    }
    forall j | 0 <= j < |s.value| ensures !EndsValue(t[j]) {
      assert t[j] == s.value[j] && s.value[j] in s.value;
    }
    assert FirstOf(t, EndsValue) == |s.value|;
    assert t[..|s.value|] == s.value;
  }

  /** A name is recognised as far as the first character that may follow it. */
  lemma NameEnds(name: string, rest: string)
    requires name != "" && (forall c | c in name :: Plain(c)) && rest != "" && EndsName(rest[0])
    ensures FirstOf(name + rest, EndsName) == |name|
    ensures (name + rest)[..|name|] == name && (name + rest)[|name|..] == rest && !("#" <= name + rest)
  {
    var line := name + rest;
    assert line[|name|] == rest[0];
    forall j | 0 <= j < |name| ensures !EndsName(line[j]) {
      assert line[j] == name[j] && name[j] in name;
    }
    assert line[0] == name[0] && name[0] in name;
  }

  lemma RenderSplits(s: Sample)
    requires Printable(s)
    ensures SplitMetricLine(Render(s)) == Some((Name(s), s.value))
  {
    NamesArePlain(s);
    TailIsTrimmed(s);
    var rest := LabelText(s) + (s.gap + Tail(s));
    RestIsValue(s, rest);
    NameEnds(Name(s), rest);
    TrimLeftBlanks(s.gap, Tail(s));
    assert TrimSpace(s.gap + Tail(s)) == Tail(s);
  }

  lemma RestIsValue(s: Sample, rest: string)
    requires Printable(s) && rest == LabelText(s) + (s.gap + Tail(s))
    ensures rest != "" && EndsName(rest[0])
    ensures rest[0] == '{' <==> s.labels.Some?
    ensures s.labels.Some? ==>
              var end := FirstOf(rest, ClosesLabels); end < |rest| && rest[end + 1..] == s.gap + Tail(s)
    ensures s.labels.None? ==> rest == s.gap + Tail(s)
  {
    TailIsTrimmed(s);
    if s.labels.Some? {
      var ls := s.labels.value;
      assert rest[1 + |ls|] == '}';
      forall j | 0 <= j < 1 + |ls| ensures rest[j] != '}' {
        assert j > 0 ==> rest[j] == ls[j - 1] && ls[j - 1] in ls;
      }
      assert FirstOf(rest, ClosesLabels) == 1 + |ls|;
      assert rest[1 + |ls| + 1..] == s.gap + Tail(s);
    } else {
      assert rest == s.gap + Tail(s);
      assert rest[0] == s.gap[0] && s.gap[0] in s.gap;
    }
  }

  lemma RenderIsTrimmed(s: Sample)
    requires Printable(s)
    ensures TrimSpace(Render(s)) == Render(s) && Render(s) != "" && !("#" <= Render(s))
  {
    NamesArePlain(s);
    TailIsTrimmed(s);
    var line := Render(s);
    assert line[0] == Name(s)[0];
    assert line[|line| - 1] == Tail(s)[|Tail(s)| - 1];
  }

  lemma RenderIsOneLine(s: Sample)
    requires Printable(s)
    ensures '\n' !in Render(s)
  {
    NamesArePlain(s);
    assert '\n' !in Name(s) && '\n' !in LabelText(s) && '\n' !in s.gap && '\n' !in Tail(s);
  }

  lemma MetricIsRead(parse: FloatReader, s: Sample)
    requires Printable(s)
    ensures ReadLine(parse, Render(s)) ==
            if parse(s.value).Some? then Some((s.gauge, parse(s.value).value)) else None
  {
    RenderIsTrimmed(s);
    RenderSplits(s);
    NamesAreRecognised(s);
  }

  lemma {:induction false} TextsAreRead(parse: FloatReader, ls: seq<Line>)
    requires forall l | l in ls :: Acceptable(parse, l)
    ensures ReadAll(parse, Texts(ls)) == Expected(parse, ls)
    ensures |Texts(ls)| == |ls| && forall t | t in Texts(ls) :: '\n' !in t && !TooLong(t)
  {
    if ls != [] {
      var before, l := ls[..|ls| - 1], ls[|ls| - 1];
      TextsAreRead(parse, before);
      assert l in ls;
      assert Texts(ls)[..|ls| - 1] == Texts(before);
      if l.Metric? {
        MetricIsRead(parse, l.sample);
        RenderIsOneLine(l.sample);
      }
    }
  }

  /** Parsing what the printer wrote, among any noise, yields the last parseable value of each
      gauge. */
  lemma ParserInvertsPrinter(parse: FloatReader, ls: seq<Line>)
    requires ls != [] && forall l | l in ls :: Acceptable(parse, l)
    ensures |Texts(ls)| == |ls|
    ensures Gauged(parse, Join(Texts(ls), '\n')) == Expected(parse, ls)
  {
    TextsAreRead(parse, ls);
    JoinSplits(Texts(ls), '\n');
    AllLinesFit(Texts(ls), []);
    assert Texts(ls) + [] == Texts(ls);
  }

  // ---- The metrics delivered --------------------------------------------------------

  /** A printed sample as text: prefix, name, labels, gap, value and timestamp. */
  lemma RenderIsText(s: Sample)
    ensures Render(s) ==
            (if s.prefix.Colon? then "vllm:" else if s.prefix.Underscore? then "vllm_" else "")
            + ((if s.gauge.CacheUsage? then "gpu_cache_usage_perc"
                else if s.gauge.Running? then "num_requests_running"
                else "num_requests_waiting")
               + ((if s.labels.Some? then "{" + s.labels.value + "}" else "")
                  + (s.gap + (s.value + if s.timestamp.Some? then " " + s.timestamp.value else ""))))
  {
    assert Render(s) == PrefixText(s.prefix) + (GaugeName(s.gauge) + (LabelText(s) + (s.gap + Tail(s))));
  }

  /** Line `i` prints the value `v` for the gauge, and no later line prints a number for it. */
  ghost predicate LastPrinted(parse: FloatReader, ls: seq<Line>, g: Gauge, i: nat, v: real) {
    && i < |ls| && ls[i].Metric? && ls[i].sample.gauge == g && parse(ls[i].sample.value) == Some(v)
    && NotPrinted(parse, ls, g, i + 1)
  }

  /** From line `i` on no line prints a number for the gauge. */
  ghost predicate NotPrinted(parse: FloatReader, ls: seq<Line>, g: Gauge, i: nat) {
    forall j | i <= j < |ls| && ls[j].Metric? && ls[j].sample.gauge == g :: parse(ls[j].sample.value) == None
  }

  /** `n` is `v` rounded toward zero. */
  predicate TowardZero(n: int, v: real) {
    if v >= 0.0 then n as real <= v < n as real + 1.0 else n as real - 1.0 < v <= n as real
  }

  /** The metrics say about one gauge what its last printed value `v` says. */
  ghost predicate Delivers(m: ModelMetrics, g: Gauge, v: real) {
    match g
    case CacheUsage => m.hasCacheUsage && m.cacheUsagePct == if v <= 1.0 then 100.0 * v else v
    case Running => TowardZero(m.requestsRunning, v)
    case Waiting => TowardZero(m.requestsWaiting, v)
  }

  ghost predicate DeliversNothing(m: ModelMetrics, g: Gauge) {
    match g
    case CacheUsage => !m.hasCacheUsage && m.cacheUsagePct == 0.0
    case Running => m.requestsRunning == 0
    case Waiting => m.requestsWaiting == 0
  }

  lemma {:induction false} ExpectedDelivers(parse: FloatReader, ls: seq<Line>, g: Gauge)
    ensures var m := ToMetrics(Expected(parse, ls));
            && (forall i: nat, v: real | LastPrinted(parse, ls, g, i, v) :: Delivers(m, g, v))
            && (NotPrinted(parse, ls, g, 0) ==> DeliversNothing(m, g))
  {
    if ls != [] {
      var before, l := ls[..|ls| - 1], ls[|ls| - 1];
      ExpectedDelivers(parse, before, g);
      var m := ToMetrics(Expected(parse, ls));
      forall i: nat, v: real | LastPrinted(parse, ls, g, i, v) ensures Delivers(m, g, v) {
        if i < |ls| - 1 {
          assert LastPrinted(parse, before, g, i, v);
        }
      }
      if NotPrinted(parse, ls, g, 0) {
        assert NotPrinted(parse, before, g, 0);
      }
    }
  }

  /** What the controller gets from a printed body, among any noise: for each gauge the last number
      printed for it, usage as a percentage, up to 1 being a fraction, and counts rounded toward zero;
      a gauge without a number is 0, and there is usage only if some was printed. */
  lemma DeliveredMetrics(parse: FloatReader, ls: seq<Line>, g: Gauge)
    requires ls != [] && forall l | l in ls :: Acceptable(parse, l)
    ensures |Texts(ls)| == |ls|
    ensures var m := ToMetrics(Gauged(parse, Join(Texts(ls), '\n')));
            && (forall i: nat, v: real | LastPrinted(parse, ls, g, i, v) :: Delivers(m, g, v))
            && (NotPrinted(parse, ls, g, 0) ==> DeliversNothing(m, g))
  {
    ParserInvertsPrinter(parse, ls);
    ExpectedDelivers(parse, ls, g);
  }

  /** A body of one line, as plain text. */
  lemma OneLineBody(parse: FloatReader, g: Gauge, name: string, value: string, v: real)
    requires match g
             case CacheUsage => name == "gpu_cache_usage_perc"
             case Running => name == "num_requests_running"
             case Waiting => name == "num_requests_waiting"
    requires Token(value) && |value| < 1_048_500 && parse(value) == Some(v)
    ensures var m := ToMetrics(Gauged(parse, "vllm:" + name + " " + value));
            Delivers(m, g, v) && forall other: Gauge | other != g :: DeliversNothing(m, other)
  {
    hide Gauged, ToMetrics, Delivers, DeliversNothing, Acceptable, Render;
    var s := Sample(Colon, g, None, " ", value, None);
    OneSampleText(s, name);
    OneSampleIsAcceptable(parse, s);
    var ls := [Metric(s)];
    assert Texts(ls) == [Render(s)] by {
      TextsOfOne(Metric(s));
    }
    assert LastPrinted(parse, ls, g, 0, v);
    DeliveredMetrics(parse, ls, g);
    forall other: Gauge | other != g ensures DeliversNothing(ToMetrics(Gauged(parse, Render(s))), other) {
      assert NotPrinted(parse, ls, other, 0);
      DeliveredMetrics(parse, ls, other);
    }
  }

  lemma OneSampleText(s: Sample, name: string)
    requires s == Sample(Colon, s.gauge, None, " ", s.value, None) && name == GaugeName(s.gauge)
    ensures Render(s) == "vllm:" + name + " " + s.value && |Render(s)| == |name| + |s.value| + 6
  {
    assert Render(s) == "vllm:" + name + ("" + (" " + (s.value + "")));
  }

  lemma OneSampleIsAcceptable(parse: FloatReader, s: Sample)
    requires s == Sample(Colon, s.gauge, None, " ", s.value, None) && Token(s.value) && |s.value| < 1_048_500
    ensures Acceptable(parse, Metric(s))
  {
    OneSampleText(s, GaugeName(s.gauge));
  }

  lemma TextsOfOne(l: Line)
    ensures Texts([l]) == [Text(l)] && Join([Text(l)], '\n') == Text(l)
  {
    assert [l][..0] == [];
  }

  /** Comments, blank lines and metrics of other names are such noise. */
  lemma CommentsAreNoise(parse: FloatReader, text: string)
    requires text == "" || text[0] == '#' || forall c | c in text :: c == ' ' || c == '\t'
    ensures ReadLine(parse, text) == None
  {
    if text != "" && text[0] == '#' {
      TrimRightKeepsHead(text);
    } else {
      BlanksTrimToNothing(text);
    }
  }

  lemma {:induction false} TrimRightKeepsHead(s: string)
    requires s != "" && !IsSpace(s[0])
    ensures TrimRight(s) != "" && TrimRight(s)[0] == s[0]
  {
    if IsSpace(s[|s| - 1]) {
      TrimRightKeepsHead(s[..|s| - 1]);
    }
  }

  lemma {:induction false} BlanksTrimToNothing(s: string)
    requires forall c | c in s :: IsSpace(c)
    ensures TrimLeft(s) == ""
  {
    if s != "" {
      assert s[0] in s;
      BlanksTrimToNothing(s[1..]);
    }
  }

  lemma OtherNamesAreNoise(parse: FloatReader, name: string, value: string)
    requires name != "" && (forall c | c in name :: Plain(c)) && Token(value)
    requires forall p: Prefix, g: Gauge :: name != PrefixText(p) + GaugeName(g)
    ensures ReadLine(parse, name + " " + value) == None
  {
    hide SplitMetricLine, TrimSpace, GaugeOf;
    PlainLineSplits(name, value);
    NotAGauge(name);
  }

  lemma PlainLineSplits(name: string, value: string)
    requires name != "" && (forall c | c in name :: Plain(c)) && Token(value)
    ensures var line := name + " " + value;
            TrimSpace(line) == line && line != "" && !("#" <= line) && SplitMetricLine(line) == Some((name, value))
  {
    hide FirstOf;
    var line := name + " " + value;
    assert line == name + (" " + value);
    var s := Sample(Bare, CacheUsage, None, " ", value, None);
    TailIsTrimmed(s);
    assert Tail(s) == value;
    NameEnds(name, " " + value);
    TrimLeftBlanks(" ", value);
    assert line[0] == name[0] && name[0] in name && line[|line| - 1] == value[|value| - 1];
    assert TrimSpace(" " + value) == value;
  }

  lemma NotAGauge(name: string)
    requires forall p: Prefix, g: Gauge :: name != PrefixText(p) + GaugeName(g)
    ensures GaugeOf(name) == None
  {
    hide NormalizeMetricName, GaugeName, PrefixText;
    NormalizedName(name);
  }

  lemma NormalizedName(name: string)
    ensures exists p: Prefix :: name == PrefixText(p) + NormalizeMetricName(name)
  {
    var n := NormalizeMetricName(name);
    if "vllm:" <= name {
      assert name == PrefixText(Colon) + n;
    } else if "vllm_" <= name {
      assert name == PrefixText(Underscore) + n;
    } else {
      assert name == PrefixText(Bare) + n;
    }
  }

  /** A line of 1,048,576 characters or more ends the reading: it and what follows say nothing. */
  lemma NothingAfterALongLine(parse: FloatReader, a: string, long: string, b: string)
    requires |long| >= 1_048_576 && '\n' !in long
    ensures Gauged(parse, a + "\n" + (long + "\n" + b)) == Gauged(parse, a)
  {
    SplitOne(long, '\n');
    assert long in Split(long, '\n') && TooLong(long);
    ConcatenationMerges(parse, a, long + "\n" + b);
    ConcatenationMerges(parse, long, b);
    assert ScannedLines(long) == [];
  }
}
