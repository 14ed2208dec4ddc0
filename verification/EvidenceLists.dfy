/** The loops that update one evidence list: marking records, trimming retired
    ones, and the generation and room a new claim gets. */
module EvidenceLists {
  import opened Sequences
  import opened Evidence
  import opened RegistryState

  /** Replaces every selected record, in place, and tells whether there was one. */
  method MarkList(evidence: seq<Record>, mark: Mark) returns (marked: seq<Record>, touched: bool)
    ensures marked == MarkRecords(evidence, mark)
    ensures touched <==> Touches(evidence, mark)
  {
    marked, touched := evidence, false;
    for i := 0 to |evidence|
      invariant |marked| == |evidence|
      invariant forall k :: 0 <= k < i ==> marked[k] == MarkRecord(evidence[k], mark)
      invariant forall k :: i <= k < |evidence| ==> marked[k] == evidence[k]
      invariant touched <==> exists k :: 0 <= k < i && Selects(mark.selector, evidence[k])
    {
      hide Selects;
      if Selects(mark.selector, marked[i]) {
        marked := marked[i := MarkRecord(marked[i], mark)];
        touched := true;
      }
    }
    if touched {
      var k :| 0 <= k < |evidence| && Selects(mark.selector, evidence[k]);
      assert evidence[k] in evidence;
    }
  }

  /** NextEvidenceGeneration, before the increment. */
  method FindHighestGeneration(evidence: seq<Record>, key: SourceKey) returns (highest: nat)
    ensures highest == HighestGeneration(evidence, key)
  {
    highest := 0;
    for i := 0 to |evidence|
      invariant highest == HighestGeneration(evidence[..i], key)
    {
      assert evidence[..i + 1][..i] == evidence[..i];
      if evidence[i].key == key && evidence[i].evidenceGeneration >= highest {
        highest := evidence[i].evidenceGeneration;
      }
    }
    assert evidence[..|evidence|] == evidence;
  }

  method LiveEvidenceCount(evidence: seq<Record>) returns (count: nat)
    ensures count == |Filter(Live, evidence)|
  {
    count := 0;
    for i := 0 to |evidence|
      invariant count == |Filter(Live, evidence[..i])|
    {
      assert evidence[..i + 1] == evidence[..i] + [evidence[i]];
      FilterStep(Live, evidence[..i], evidence[i]);
      if Live(evidence[i]) {
        count := count + 1;
      }
    }
    assert evidence[..|evidence|] == evidence;
  }

  method FindVictim(evidence: seq<Record>) returns (victim: nat)
    ensures victim == OldestRetired(evidence)
  {
    victim := |evidence|;
    var index := 0;
    while index < |evidence| && victim == |evidence|
      invariant index <= |evidence|
      invariant victim == |evidence| ==> forall i :: 0 <= i < index ==> Live(evidence[i])
      invariant victim != |evidence| ==>
          victim < index && !Live(evidence[victim]) && forall i :: 0 <= i < victim ==> Live(evidence[i])
    {
      if evidence[index].currentness.Superseded? || evidence[index].currentness.EntityGenerationSuperseded? {
        victim := index;
      }
      index := index + 1;
    }
  }

  /** Erases the oldest retired records until the list fits the limit or only live ones are left. */
  method TrimEvidence(evidence: seq<Record>, limit: nat) returns (trimmed: seq<Record>)
    ensures trimmed == Trim(evidence, limit)
  {
    trimmed := evidence;
    var stuck := false;
    while |trimmed| > limit && !stuck
      invariant Trim(trimmed, limit) == Trim(evidence, limit)
      invariant stuck ==> Trim(trimmed, limit) == trimmed
      decreases |trimmed|, !stuck
    {
      var victim := FindVictim(trimmed);
      if victim == |trimmed| {
        stuck := true;
      } else {
        trimmed := Without(trimmed, victim);
      }
    }
  }
}
