/** The DCGM exporter's metrics lines and their parser, shared by both
    scheduler versions (`query_gcdm`).  A line starting with the metric name
    is matched, from its first character, against

      DCGM_FI_DEV_SM_CLOCK{gpu="(.*?)",UUID="(.*?)",device="(.*?)",modelName="(.*?)",
        Hostname="(.*?)",DCGM_FI_DRIVER_VERSION="(.*?)",container="(.*?)",
        namespace="(.*?)",pod="(.*?)"}.*

    whose nine lazy groups are written out below with the backtracking a
    regex engine performs: a group grows by one character only when the rest
    of the pattern cannot match after it. */
module Metrics {
  import opened Common
  import opened Text

  const MetricName := "DCGM_FI_DEV_SM_CLOCK"
  /** The label names, in the order the pattern expects them. */
  const Labels: seq<string> :=
    ["gpu", "UUID", "device", "modelName", "Hostname", "DCGM_FI_DRIVER_VERSION", "container", "namespace", "pod"]
  const LabelCount := 9

  /** One GPU as the exporter reports it; `pod` is empty when no workload holds it. */
  datatype Sample = Sample(
    gpu: string, uuid: string, device: string, modelName: string, hostname: string,
    driverVersion: string, container: string, namespace: string, pod: string)

  function Values(s: Sample): (v: seq<string>)
    ensures |v| == LabelCount
  {
    [s.gpu, s.uuid, s.device, s.modelName, s.hostname, s.driverVersion, s.container, s.namespace, s.pod]
  }

  function SampleOf(v: seq<string>): Sample
    requires |v| == LabelCount
  {
    Sample(v[0], v[1], v[2], v[3], v[4], v[5], v[6], v[7], v[8])
  }

  /** The text before the first group of a pattern with these labels. */
  function Opening(labels: seq<string>): string
    requires |labels| > 0
  {
    MetricName + "{" + labels[0] + "=\""
  }

  /** The text that must follow group `k`: the next label, or the closing `"}`. */
  function Closing(labels: seq<string>, k: nat): (c: string)
    requires k < |labels|
    ensures |c| > 0 && c[0] == '"'
  {
    if k + 1 < |labels| then "\"," + labels[k + 1] + "=\"" else "\"}"
  }

  /** `text` occurs in `s` at position `i`. */
  predicate FollowsAt(s: string, i: nat, text: string)
    requires i <= |s|
    ensures FollowsAt(s, i, text) ==> i + |text| <= |s|
    decreases |text|
  {
    |text| == 0 || (i < |s| && s[i] == text[0] && FollowsAt(s, i + 1, text[1..]))
  }

  /** Groups `k` onwards, matched against `s`, the text from where group `k`
      starts: group `k` is `s[..j]` if the rest of the pattern matches after
      it, and otherwise grows by one non-newline character.  The trailing `.*`
      matches the empty text, so once the last group is closed the match
      succeeds whatever follows. */
  function Groups(s: string, labels: seq<string>, k: nat, j: nat): (r: Option<seq<string>>)
    requires k < |labels| && j <= |s|
    ensures r.Some? ==> |r.value| == |labels| - k
    decreases |labels| - k, |s| - j
  {
    var close := Closing(labels, k);
    var rest :=
      if !FollowsAt(s, j, close) then None
      else if k + 1 == |labels| then Some([])
      else Groups(s[j + |close|..], labels, k + 1, 0);
    if rest.Some? then Some([s[..j]] + rest.value)
    else if j < |s| && s[j] != '\n' then Groups(s, labels, k, j + 1)
    else None
  }

  /** `re.match` of the pattern with these labels: its groups, if it fits. */
  function Match(line: string, labels: seq<string>): (r: Option<seq<string>>)
    requires |labels| > 0
    ensures r.Some? ==> |r.value| == |labels|
  {
    var opening := Opening(labels);
    if !(opening <= line) then None
    else Groups(line[|opening|..], labels, 0, 0)
  }

  predicate IsMetricLine(line: string) {
    StartsWith(line, MetricName)
  }

  /** The line parser of `query_gcdm`; `None` when the line does not fit. */
  function ParseLine(line: string): Option<Sample> {
    match Match(line, Labels)
    case None => None
    case Some(groups) => Some(SampleOf(groups))
  }

  /** The labelled part of a line, from group `k` on. */
  function RenderFrom(labels: seq<string>, v: seq<string>, k: nat): string
    requires |v| == |labels| && k < |labels|
    decreases |labels| - k
  {
    v[k] + Closing(labels, k) + (if k + 1 == |labels| then "" else RenderFrom(labels, v, k + 1))
  }

  /** The line the exporter writes: the labelled part followed by anything
      (the reading, in practice). */
  function RenderLabelled(labels: seq<string>, v: seq<string>, tail: string): string
    requires |v| == |labels| > 0
  {
    Opening(labels) + RenderFrom(labels, v, 0) + tail
  }

  function Render(s: Sample, tail: string): string {
    RenderLabelled(Labels, Values(s), tail)
  }

  /** A label value the lazy groups cannot mistake for a delimiter. */
  predicate Clean(value: string) {
    '"' !in value && '\n' !in value
  }

  predicate CleanSample(s: Sample) {
    forall k | 0 <= k < LabelCount :: Clean(Values(s)[k])
  }

  lemma {:induction false} FollowsConcat(s: string, i: nat, text: string, rest: string)
    requires i <= |s| && s[i..] == text + rest
    ensures FollowsAt(s, i, text)
    decreases |text|
  {
    if |text| > 0 {
      assert s[i] == s[i..][0];
      assert s[i + 1..] == text[1..] + rest by {
        assert s[i + 1..] == s[i..][1..];
      }
      FollowsConcat(s, i + 1, text[1..], rest);
    }
  }

  /** A character that is neither a quote nor a newline only ever lengthens
      the current group. */
  lemma GroupsSkip(s: string, labels: seq<string>, k: nat, j: nat)
    requires k < |labels| && j < |s|
    requires s[j] != '"' && s[j] != '\n'
    ensures Groups(s, labels, k, j) == Groups(s, labels, k, j + 1)
  {
    assert !FollowsAt(s, j, Closing(labels, k));
  }

  lemma CleanAt(s: string, value: string, j: nat)
    requires |value| <= |s| && s[..|value|] == value && Clean(value) && j < |value|
    ensures s[j] != '"' && s[j] != '\n'
  {
    assert s[j] == value[j];
    assert value[j] in value;
  }

  /** A group never stops inside a run of characters that are neither quotes
      nor newlines. */
  lemma {:induction false} GroupsSkipRun(s: string, labels: seq<string>, k: nat, j: nat, e: nat)
    requires k < |labels| && j <= e <= |s|
    requires forall i | j <= i < e :: s[i] != '"' && s[i] != '\n'
    ensures Groups(s, labels, k, j) == Groups(s, labels, k, e)
    decreases e - j
  {
    if j < e {
      GroupsSkip(s, labels, k, j);
      GroupsSkipRun(s, labels, k, j + 1, e);
    }
  }

  /** A group never stops inside a clean value. */
  lemma GroupsSkipValue(s: string, labels: seq<string>, k: nat, j: nat, value: string)
    requires k < |labels| && |value| <= |s| && s[..|value|] == value
    requires Clean(value) && j <= |value|
    ensures Groups(s, labels, k, j) == Groups(s, labels, k, |value|)
  {
    forall i | j <= i < |value| ensures s[i] != '"' && s[i] != '\n' {
      CleanAt(s, value, i);
    }
    GroupsSkipRun(s, labels, k, j, |value|);
  }

  /** Where the closing text follows and the rest of the pattern matches,
      the current group ends there. */
  lemma GroupsClose(s: string, labels: seq<string>, k: nat, j: nat)
    requires k + 1 < |labels| && j <= |s|
    requires FollowsAt(s, j, Closing(labels, k))
    requires Groups(s[j + |Closing(labels, k)|..], labels, k + 1, 0).Some?
    ensures Groups(s, labels, k, j) == Some([s[..j]] + Groups(s[j + |Closing(labels, k)|..], labels, k + 1, 0).value)
  {
  }

  /** Where the final `"}` follows, the last group ends there. */
  lemma GroupsCloseLast(s: string, labels: seq<string>, j: nat)
    requires 0 < |labels| && j <= |s|
    requires FollowsAt(s, j, Closing(labels, |labels| - 1))
    ensures Groups(s, labels, |labels| - 1, j) == Some([s[..j]])
  {
    assert [s[..j]] + [] == [s[..j]];
  }

  /** `s` starts with the values from `k` on, each followed by its closing text. */
  predicate ValuesIn(s: string, labels: seq<string>, v: seq<string>, k: nat)
    requires |v| == |labels| && k < |labels|
    decreases |labels| - k
  {
    var end := |v[k]|;
    && end <= |s|
    && s[..end] == v[k]
    && FollowsAt(s, end, Closing(labels, k))
    && (k + 1 < |labels| ==> ValuesIn(s[end + |Closing(labels, k)|..], labels, v, k + 1))
  }

  lemma RenderFromSplit(labels: seq<string>, v: seq<string>, k: nat, tail: string)
    requires |v| == |labels| && k < |labels|
    ensures RenderFrom(labels, v, k) + tail
      == v[k] + (Closing(labels, k) + ((if k + 1 == |labels| then "" else RenderFrom(labels, v, k + 1)) + tail))
  {
  }

  lemma ConcatParts(a: string, b: string, c: string)
    ensures (a + (b + c))[..|a|] == a
    ensures (a + (b + c))[|a|..] == b + c
    ensures (a + (b + c))[|a| + |b|..] == c
  {
  }

  /** A value, its closing text, and values from `k + 1` on make values from `k` on. */
  lemma ValuesInStep(s: string, labels: seq<string>, v: seq<string>, k: nat, rest: string)
    requires |v| == |labels| && k < |labels|
    requires s == v[k] + (Closing(labels, k) + rest)
    requires k + 1 < |labels| ==> ValuesIn(rest, labels, v, k + 1)
    ensures ValuesIn(s, labels, v, k)
  {
    var close := Closing(labels, k);
    ConcatParts(v[k], close, rest);
    FollowsConcat(s, |v[k]|, close, rest);
  }

  lemma {:induction false} RenderedValuesIn(labels: seq<string>, v: seq<string>, k: nat, tail: string)
    requires |v| == |labels| && k < |labels|
    ensures ValuesIn(RenderFrom(labels, v, k) + tail, labels, v, k)
    decreases |labels| - k
  {
    var after := if k + 1 == |labels| then "" else RenderFrom(labels, v, k + 1);
    RenderFromSplit(labels, v, k, tail);
    if k + 1 < |labels| {
      RenderedValuesIn(labels, v, k + 1, tail);
    }
    ValuesInStep(RenderFrom(labels, v, k) + tail, labels, v, k, after + tail);
  }

  /** Where the clean values follow one another, each closed by its
      delimiter, the groups from `k` on are exactly those values. */
  lemma {:induction false} GroupsOfValues(s: string, labels: seq<string>, v: seq<string>, k: nat)
    requires |v| == |labels| && k < |labels|
    requires forall i | 0 <= i < |v| :: Clean(v[i])
    requires ValuesIn(s, labels, v, k)
    ensures Groups(s, labels, k, 0) == Some(v[k..])
    decreases |labels| - k
  {
    var end := |v[k]|;
    GroupsSkipValue(s, labels, k, 0, v[k]);
    if k + 1 < |labels| {
      GroupsOfValues(s[end + |Closing(labels, k)|..], labels, v, k + 1);
      GroupsClose(s, labels, k, end);
    } else {
      GroupsCloseLast(s, labels, end);
    }
    DropCons(v, k);
  }

  /** Matching a rendered line gives back its values, whatever follows the
      labels, as long as no value contains a quote or a newline. */
  lemma MatchRendered(labels: seq<string>, v: seq<string>, tail: string)
    requires |v| == |labels| > 0
    requires forall i | 0 <= i < |v| :: Clean(v[i])
    ensures IsMetricLine(RenderLabelled(labels, v, tail))
    ensures Match(RenderLabelled(labels, v, tail), labels) == Some(v)
  {
    var line := RenderLabelled(labels, v, tail);
    var opening := Opening(labels);
    assert line[..|opening|] == opening;
    assert line[..|MetricName|] == MetricName;
    assert line[|opening|..] == RenderFrom(labels, v, 0) + tail;
    RenderedValuesIn(labels, v, 0, tail);
    GroupsOfValues(line[|opening|..], labels, v, 0);
    assert v[0..] == v;
  }

  /** The exporter's lines parse back to the samples they were written from. */
  lemma ParseRenderedLine(s: Sample, tail: string)
    requires CleanSample(s)
    ensures IsMetricLine(Render(s, tail))
    ensures ParseLine(Render(s, tail)) == Some(s)
  {
    MatchRendered(Labels, Values(s), tail);
  }

  function MetricLineCount(lines: seq<string>): nat {
    if |lines| == 0 then 0
    else MetricLineCount(lines[..|lines| - 1]) + (if IsMetricLine(lines[|lines| - 1]) then 1 else 0)
  }

  /** The per-line loop: a sample for each metric line, in order; other lines
      are skipped, and a metric line that does not fit makes the script call
      `.group` on `None`, which raises. */
  function Scrape(lines: seq<string>): (r: Result<seq<Sample>>)
    ensures r.Err? <==> exists i | 0 <= i < |lines| :: IsMetricLine(lines[i]) && ParseLine(lines[i]).None?
    ensures r.Err? ==> r.error == AttributeError
    ensures r.Ok? ==> |r.value| == MetricLineCount(lines)
  {
    if |lines| == 0 then Ok([])
    else
      var init := lines[..|lines| - 1];
      var line := lines[|lines| - 1];
      assert forall i | 0 <= i < |init| :: init[i] == lines[i];
      match Scrape(init)
      case Err(e) => Err(e)
      case Ok(samples) =>
        if !IsMetricLine(line) then Ok(samples)
        else
          match ParseLine(line)
          case None => Err(AttributeError)
          case Some(sample) => Ok(samples + [sample])
  }

  /** One more line for the scrape loop. */
  lemma ScrapeSnoc(lines: seq<string>, line: string)
    ensures Scrape(lines + [line]) ==
      match Scrape(lines)
      case Err(e) => Err(e)
      case Ok(samples) =>
        if !IsMetricLine(line) then Ok(samples)
        else if ParseLine(line).None? then Err(AttributeError)
        else Ok(samples + [ParseLine(line).value])
  {
    assert (lines + [line])[..|lines|] == lines;
  }

  /** Rendered samples scrape back to themselves, in order. */
  lemma {:induction false} ScrapeRenderedLines(lines: seq<string>, samples: seq<Sample>, tails: seq<string>)
    requires |lines| == |samples| == |tails|
    requires forall i | 0 <= i < |lines| :: CleanSample(samples[i]) && lines[i] == Render(samples[i], tails[i])
    ensures Scrape(lines) == Ok(samples)
  {
    if |lines| > 0 {
      var n := |lines| - 1;
      ScrapeRenderedLines(lines[..n], samples[..n], tails[..n]);
      ParseRenderedLine(samples[n], tails[n]);
      ScrapeSnoc(lines[..n], lines[n]);
      LastSplit(lines);
      LastSplit(samples);
    }
  }
}
