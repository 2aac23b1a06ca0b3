/** GPU supply as the later scheduler sees it: the samples of every DCGM
    exporter (`query_gcdm`), and the split of their nodes into vacant and
    occupied ones (`get_GPU_node_info`). */
module Supply {
  import opened Common
  import opened Metrics

  /** The samples of all exporters, exporter by exporter; `outputs[e]` is the
      metrics text of exporter `e`, split into lines. */
  function ScrapeAll(outputs: seq<seq<string>>): (r: Result<seq<Sample>>)
    ensures r.Err? <==> exists e | 0 <= e < |outputs| :: Scrape(outputs[e]).Err?
    ensures r.Err? ==> r.error == AttributeError
  {
    if |outputs| == 0 then Ok([])
    else
      var init := outputs[..|outputs| - 1];
      assert forall e | 0 <= e < |init| :: init[e] == outputs[e];
      match ScrapeAll(init)
      case Err(err) => Err(err)
      case Ok(earlier) =>
        match Scrape(outputs[|outputs| - 1])
        case Err(err) => Err(err)
        case Ok(samples) => Ok(earlier + samples)
  }

  /** Every metric line of every exporter yields one sample. */
  lemma {:induction false} ScrapeAllCount(outputs: seq<seq<string>>)
    requires ScrapeAll(outputs).Ok?
    ensures |ScrapeAll(outputs).value| == TotalMetricLines(outputs)
  {
    if |outputs| > 0 {
      ScrapeAllCount(outputs[..|outputs| - 1]);
    }
  }

  function TotalMetricLines(outputs: seq<seq<string>>): nat {
    if |outputs| == 0 then 0
    else TotalMetricLines(outputs[..|outputs| - 1]) + MetricLineCount(outputs[|outputs| - 1])
  }

  lemma ScrapeAllSnoc(outputs: seq<seq<string>>, lines: seq<string>)
    ensures ScrapeAll(outputs + [lines]) ==
      match ScrapeAll(outputs)
      case Err(err) => Err(err)
      case Ok(earlier) =>
        match Scrape(lines)
        case Err(err) => Err(err)
        case Ok(samples) => Ok(earlier + samples)
  {
    assert (outputs + [lines])[..|outputs|] == outputs;
  }

  /** The scrape loop: the lines of each exporter in turn. */
  method QueryGcdm(outputs: seq<seq<string>>) returns (r: Result<seq<Sample>>)
    ensures r == ScrapeAll(outputs)
  {
    var info: seq<Sample> := [];
    for e := 0 to |outputs|
      invariant ScrapeAll(outputs[..e]) == Ok(info)
    {
      var lines := outputs[e];
      var found: seq<Sample> := [];
      for j := 0 to |lines|
        invariant Scrape(lines[..j]) == Ok(found)
      {
        var line := lines[j];
        ScrapeSnoc(lines[..j], line);
        PrefixSnoc(lines, j);
        if IsMetricLine(line) {
          var parsed := ParseLine(line);
          if parsed.None? {
            assert IsMetricLine(lines[j]) && ParseLine(lines[j]).None?;
            assert Scrape(outputs[e]).Err?;
            return Err(AttributeError);
          }
          found := found + [parsed.value];
        }
      }
      assert lines[..|lines|] == lines;
      PrefixSnoc(outputs, e);
      ScrapeAllSnoc(outputs[..e], lines);
      info := info + found;
    }
    assert outputs[..|outputs|] == outputs;
    return Ok(info);
  }

  /** The node each vacant sample runs on, in sample order; `nodeOf` stands
      for the lookup of the exporter pod (the `Hostname` label) to its node. */
  function VacantNodes(samples: seq<Sample>, nodeOf: string -> string): (r: seq<string>)
    ensures forall n :: n in r <==> exists i | 0 <= i < |samples| :: samples[i].pod == "" && nodeOf(samples[i].hostname) == n
  {
    if |samples| == 0 then []
    else
      var init := samples[..|samples| - 1];
      var last := samples[|samples| - 1];
      assert forall i | 0 <= i < |init| :: init[i] == samples[i];
      VacantNodes(init, nodeOf) + (if last.pod == "" then [nodeOf(last.hostname)] else [])
  }

  /** The node each occupied sample runs on: a non-empty `pod` label is true in Python. */
  function OccupiedNodes(samples: seq<Sample>, nodeOf: string -> string): (r: seq<string>)
    ensures forall n :: n in r <==> exists i | 0 <= i < |samples| :: samples[i].pod != "" && nodeOf(samples[i].hostname) == n
  {
    if |samples| == 0 then []
    else
      var init := samples[..|samples| - 1];
      var last := samples[|samples| - 1];
      assert forall i | 0 <= i < |init| :: init[i] == samples[i];
      OccupiedNodes(init, nodeOf) + (if last.pod != "" then [nodeOf(last.hostname)] else [])
  }

  /** The node of every sample, in order. */
  function NodesOf(samples: seq<Sample>, nodeOf: string -> string): (r: seq<string>)
    ensures |r| == |samples| && forall i | 0 <= i < |samples| :: r[i] == nodeOf(samples[i].hostname)
  {
    if |samples| == 0 then []
    else NodesOf(samples[..|samples| - 1], nodeOf) + [nodeOf(samples[|samples| - 1].hostname)]
  }

  /** Appending `x` to one side of a split list and to the whole keeps the split. */
  lemma SplitStep(a: seq<string>, b: seq<string>, c: seq<string>, a': seq<string>, b': seq<string>, x: string)
    requires |a| + |b| == |c| && multiset(a) + multiset(b) == multiset(c)
    requires (a' == a + [x] && b' == b) || (a' == a && b' == b + [x])
    ensures |a'| + |b'| == |c + [x]| && multiset(a') + multiset(b') == multiset(c + [x])
  {
  }

  /** Every sample lands in exactly one of the two lists. */
  lemma {:induction false} SupplyPartition(samples: seq<Sample>, nodeOf: string -> string)
    ensures |VacantNodes(samples, nodeOf)| + |OccupiedNodes(samples, nodeOf)| == |samples|
    ensures multiset(VacantNodes(samples, nodeOf)) + multiset(OccupiedNodes(samples, nodeOf))
      == multiset(NodesOf(samples, nodeOf))
  {
    if |samples| > 0 {
      var n := |samples| - 1;
      var init := samples[..n];
      SupplyPartition(init, nodeOf);
      var x := nodeOf(samples[n].hostname);
      assert VacantNodes(samples, nodeOf) == VacantNodes(init, nodeOf) + (if samples[n].pod == "" then [x] else []);
      assert OccupiedNodes(samples, nodeOf) == OccupiedNodes(init, nodeOf) + (if samples[n].pod != "" then [x] else []);
      assert NodesOf(samples, nodeOf) == NodesOf(init, nodeOf) + [x];
      SplitStep(VacantNodes(init, nodeOf), OccupiedNodes(init, nodeOf), NodesOf(init, nodeOf),
        VacantNodes(samples, nodeOf), OccupiedNodes(samples, nodeOf), nodeOf(samples[n].hostname));
    }
  }

  /** The loop of `get_GPU_node_info`. */
  method GetGpuNodeInfo(samples: seq<Sample>, nodeOf: string -> string) returns (vacant: seq<string>, occupied: seq<string>)
    ensures vacant == VacantNodes(samples, nodeOf)
    ensures occupied == OccupiedNodes(samples, nodeOf)
  {
    vacant, occupied := [], [];
    for i := 0 to |samples|
      invariant vacant == VacantNodes(samples[..i], nodeOf)
      invariant occupied == OccupiedNodes(samples[..i], nodeOf)
    {
      assert samples[..i + 1][..i] == samples[..i];
      var node := nodeOf(samples[i].hostname);
      if samples[i].pod != "" {
        occupied := occupied + [node];
      } else {
        vacant := vacant + [node];
      }
    }
    assert samples[..|samples|] == samples;
  }
}
