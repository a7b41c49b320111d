/** The per-frame detection table of app.py (`detections_confidence`): raw
    detections folded into one entry per label, keeping every confidence in
    input order, the largest confidence (starting from 0) and the box of the
    detection that last raised that maximum. */
module Detections {
  import opened Wrappers

  /** A bounding box in x1, y1, x2, y2 form. */
  datatype Box = Box(x1: real, y1: real, x2: real, y2: real)

  /** One object found by the detector: its label (class name), its confidence
      as a percentage and its box. */
  datatype RawDetection = RawDetection(name: string, confidence: real, box: Box)

  /** The value of `detections_confidence[label]`. */
  datatype Entry = Entry(confidences: seq<real>, max: real, box: Option<Box>)

  /** The entry created the first time a label is seen. */
  const FreshEntry: Entry := Entry([], 0.0, None)

  /** One detection added to its label's entry: append the confidence; only a
      strictly larger confidence replaces the maximum and the box. */
  function Extend(e: Entry, d: RawDetection): Entry {
    if d.confidence > e.max then Entry(e.confidences + [d.confidence], d.confidence, Some(d.box))
    else Entry(e.confidences + [d.confidence], e.max, e.box)
  }

  // ---------------------------------------------------------------------------
  // The reference description of the finished table, independent of the loop.
  // ---------------------------------------------------------------------------

  /** The distinct labels of `ds`, in the order of their first occurrence. */
  function Labels(ds: seq<RawDetection>): seq<string> {
    if ds == [] then []
    else
      var ls := Labels(ds[..|ds| - 1]);
      var n := ds[|ds| - 1].name;
      if n in ls then ls else ls + [n]
  }

  /** The confidences of the detections labelled `name`, in input order. */
  function Confidences(ds: seq<RawDetection>, name: string): seq<real> {
    if ds == [] then []
    else
      var d := ds[|ds| - 1];
      Confidences(ds[..|ds| - 1], name) + (if d.name == name then [d.confidence] else [])
  }

  /** The largest of 0 and the elements of `cs`. */
  function MaxConfidence(cs: seq<real>): real {
    if cs == [] then 0.0
    else
      var m := MaxConfidence(cs[..|cs| - 1]);
      if cs[|cs| - 1] > m then cs[|cs| - 1] else m
  }

  /** The index of the first detection labelled `name` whose confidence is `m`,
      or |ds| when there is none. */
  function FirstReaching(ds: seq<RawDetection>, name: string, m: real): (i: nat)
    ensures i <= |ds|
    ensures i < |ds| ==> ds[i].name == name && ds[i].confidence == m
    ensures forall j :: 0 <= j < i ==> !(ds[j].name == name && ds[j].confidence == m)
  {
    if ds == [] then 0
    else if ds[0].name == name && ds[0].confidence == m then 0
    else 1 + FirstReaching(ds[1..], name, m)
  }

  /** The box of the first detection labelled `name` that reaches the label's
      maximum, or None when no confidence of that label exceeds 0. */
  function BestBox(ds: seq<RawDetection>, name: string): Option<Box> {
    var m := MaxConfidence(Confidences(ds, name));
    if m == 0.0 then None
    else
      MaxIsReached(ds, name);
      Some(ds[FirstReaching(ds, name, m)].box)
  }

  /** What the table holds for `name` once all of `ds` has been processed. */
  function Summary(ds: seq<RawDetection>, name: string): Entry {
    Entry(Confidences(ds, name), MaxConfidence(Confidences(ds, name)), BestBox(ds, name))
  }

  // ---------------------------------------------------------------------------
  // Properties of the reference description.
  // ---------------------------------------------------------------------------

  /** The maximum is the larger of 0 and the greatest confidence. */
  lemma {:induction false} MaxConfidenceIsMax(cs: seq<real>)
    ensures MaxConfidence(cs) >= 0.0
    ensures forall c :: c in cs ==> c <= MaxConfidence(cs)
    ensures MaxConfidence(cs) == 0.0 || MaxConfidence(cs) in cs
  {
    if cs != [] {
      var init := cs[..|cs| - 1];
      MaxConfidenceIsMax(init);
      assert cs == init + [cs[|cs| - 1]];
    }
  }

  /** Confidences of separate stretches of input are concatenated in order. */
  lemma {:induction false} ConfidencesAppend(xs: seq<RawDetection>, ys: seq<RawDetection>, name: string)
    ensures Confidences(xs + ys, name) == Confidences(xs, name) + Confidences(ys, name)
  {
    if ys == [] {
      assert xs + ys == xs;
    } else {
      var init := ys[..|ys| - 1];
      ConfidencesAppend(xs, init, name);
      assert (xs + ys)[..|xs + ys| - 1] == xs + init;
      assert (xs + ys)[|xs + ys| - 1] == ys[|ys| - 1];
    }
  }

  /** A value is among a label's confidences exactly when some detection of that
      label carries it. */
  lemma {:induction false} ConfidencesExactly(ds: seq<RawDetection>, name: string, c: real)
    ensures c in Confidences(ds, name) <==>
            exists i :: 0 <= i < |ds| && ds[i].name == name && ds[i].confidence == c
  {
    if ds != [] {
      var init := ds[..|ds| - 1];
      ConfidencesExactly(init, name, c);
      if exists i :: 0 <= i < |ds| && ds[i].name == name && ds[i].confidence == c {
        var i :| 0 <= i < |ds| && ds[i].name == name && ds[i].confidence == c;
        if i < |ds| - 1 {
          assert init[i] == ds[i];
        }
      }
      if exists i :: 0 <= i < |init| && init[i].name == name && init[i].confidence == c {
        var i :| 0 <= i < |init| && init[i].name == name && init[i].confidence == c;
        assert ds[i] == init[i];
      }
    }
  }

  /** There is exactly one label in `Labels(ds)` per label that has detections,
      and no label is listed twice. */
  lemma {:induction false} LabelsExactly(ds: seq<RawDetection>)
    ensures Distinct(Labels(ds))
    ensures forall n :: n in Labels(ds) <==> Confidences(ds, n) != []
  {
    if ds != [] {
      LabelsExactly(ds[..|ds| - 1]);
    }
  }

  /** When the maximum is positive, some detection of the label reaches it. */
  lemma MaxIsReached(ds: seq<RawDetection>, name: string)
    requires MaxConfidence(Confidences(ds, name)) != 0.0
    ensures FirstReaching(ds, name, MaxConfidence(Confidences(ds, name))) < |ds|
  {
    var m := MaxConfidence(Confidences(ds, name));
    MaxConfidenceIsMax(Confidences(ds, name));
    ConfidencesExactly(ds, name, m);
  }

  /** The best box is the box of the first detection of the label whose
      confidence equals the maximum, and it is absent exactly when the maximum
      stayed at 0. */
  lemma BestBoxIsFirstMaximum(ds: seq<RawDetection>, name: string)
    ensures BestBox(ds, name).None? <==> MaxConfidence(Confidences(ds, name)) == 0.0
    ensures BestBox(ds, name).Some? ==>
              exists i :: 0 <= i < |ds| && ds[i].name == name
                && ds[i].confidence == MaxConfidence(Confidences(ds, name))
                && BestBox(ds, name) == Some(ds[i].box)
                && forall j :: 0 <= j < i && ds[j].name == name ==> ds[j].confidence != ds[i].confidence
  {
    var m := MaxConfidence(Confidences(ds, name));
    if m != 0.0 {
      MaxIsReached(ds, name);
      var i := FirstReaching(ds, name, m);
      assert ds[i].name == name && ds[i].confidence == m;
    }
  }

  /** Appending one detection to the input moves the first position reaching `m`
      only when no earlier detection reached it. */
  lemma {:induction false} FirstReachingAppend(ds: seq<RawDetection>, d: RawDetection, name: string, m: real)
    ensures FirstReaching(ds, name, m) < |ds| ==> FirstReaching(ds + [d], name, m) == FirstReaching(ds, name, m)
    ensures FirstReaching(ds, name, m) == |ds| && d.name == name && d.confidence == m ==>
              FirstReaching(ds + [d], name, m) == |ds|
  {
    if ds != [] {
      FirstReachingAppend(ds[1..], d, name, m);
      assert (ds + [d])[1..] == ds[1..] + [d];
    }
  }

  /** Feeding one more detection to the reference description is `Extend` on the
      detection's own label and changes no other label. */
  lemma SummaryStep(ds: seq<RawDetection>, d: RawDetection, name: string)
    ensures Summary(ds + [d], name) == if d.name == name then Extend(Summary(ds, name), d) else Summary(ds, name)
  {
    var ds' := ds + [d];
    assert ds'[..|ds'| - 1] == ds;
    var cs := Confidences(ds, name);
    var m := MaxConfidence(cs);
    MaxConfidenceIsMax(cs);
    if d.name == name {
      assert Confidences(ds', name) == cs + [d.confidence];
      assert (cs + [d.confidence])[..|cs|] == cs;
    } else {
      assert Confidences(ds', name) == cs;
    }
    var m' := MaxConfidence(Confidences(ds', name));
    if d.name == name && d.confidence > m {
      // No earlier detection of the label reaches the new maximum.
      assert m' == d.confidence;
      if FirstReaching(ds, name, m') < |ds| {
        var i := FirstReaching(ds, name, m');
        ConfidencesExactly(ds, name, ds[i].confidence);
        assert false;
      }
      FirstReachingAppend(ds, d, name, m');
    } else {
      assert m' == m;
      if m != 0.0 {
        MaxIsReached(ds, name);
        FirstReachingAppend(ds, d, name, m);
      }
    }
  }

  /** A label without detections has the entry created on first sight. */
  lemma AbsentSummary(ds: seq<RawDetection>, name: string)
    requires name !in Labels(ds)
    ensures Summary(ds, name) == FreshEntry
  {
  }

  /** `labels` and `entries` are the reference description of the table for `ds`. */
  ghost predicate Describes(ds: seq<RawDetection>, labels: seq<string>, entries: map<string, Entry>) {
    && labels == Labels(ds)
    && (forall n :: n in entries <==> n in labels)
    && (forall n :: n in entries ==> entries[n] == Summary(ds, n))
  }

  /** One loop step on a table that describes `ds` gives a table that describes
      `ds + [d]`. */
  lemma TableStep(ds: seq<RawDetection>, i: nat, labels: seq<string>, entries: map<string, Entry>, e: Entry)
    requires i < |ds| && Describes(ds[..i], labels, entries)
    requires e == if ds[i].name in entries then entries[ds[i].name] else FreshEntry
    ensures Describes(ds[..i + 1], labels + (if ds[i].name in entries then [] else [ds[i].name]),
                      entries[ds[i].name := Extend(e, ds[i])])
  {
    var d := ds[i];
    assert ds[..i + 1] == ds[..i] + [d];
    TableStepAppend(ds[..i], d, labels, entries, e);
  }

  lemma TableStepAppend(ds: seq<RawDetection>, d: RawDetection, labels: seq<string>, entries: map<string, Entry>, e: Entry)
    requires Describes(ds, labels, entries)
    requires e == if d.name in entries then entries[d.name] else FreshEntry
    ensures Describes(ds + [d], labels + (if d.name in entries then [] else [d.name]), entries[d.name := Extend(e, d)])
  {
    var labels' := labels + (if d.name in entries then [] else [d.name]);
    var entries' := entries[d.name := Extend(e, d)];
    assert (ds + [d])[..|ds|] == ds;
    assert labels' == Labels(ds + [d]);
    forall n | n in entries' ensures entries'[n] == Summary(ds + [d], n) {
      SummaryStep(ds, d, n);
      if n == d.name && d.name !in entries {
        AbsentSummary(ds, n);
      }
    }
  }

  // ---------------------------------------------------------------------------
  // The table itself, built in place.
  // ---------------------------------------------------------------------------

  /** The dictionary `detections_confidence`: `labels` is its insertion order,
      `entries` its contents. */
  class Aggregation {
    var labels: seq<string>
    var entries: map<string, Entry>

    ghost predicate Valid()
      reads this
    {
      && Distinct(labels)
      && forall n :: n in entries <==> n in labels
    }

    constructor ()
      ensures Valid()
      ensures labels == [] && entries == map[]
    {
      labels := [];
      entries := map[];
    }

    /** The entry for `name`, or the one a first detection would create. */
    function EntryOf(name: string): Entry
      reads this
    {
      if name in entries then entries[name] else FreshEntry
    }

    /** The body of the aggregation loop for one detection. */
    method Add(d: RawDetection)
      requires Valid()
      modifies this
      ensures Valid()
      ensures labels == old(labels) + (if d.name in old(entries) then [] else [d.name])
      ensures entries == old(entries)[d.name := Extend(old(EntryOf(d.name)), d)]
    {
      if d.name !in entries {
        entries := entries[d.name := FreshEntry];
        labels := labels + [d.name];
      }
      var e := entries[d.name];
      var confidences := e.confidences + [d.confidence];
      if d.confidence > e.max {
        entries := entries[d.name := Entry(confidences, d.confidence, Some(d.box))];
      } else {
        entries := entries[d.name := Entry(confidences, e.max, e.box)];
      }
    }
  }

  /** The aggregation loop over all detections of a frame: the table lists each
      label of `ds` once, in order of first occurrence, with the entry the
      reference description gives. */
  method Aggregate(ds: seq<RawDetection>) returns (agg: Aggregation)
    ensures fresh(agg) && agg.Valid()
    ensures agg.labels == Labels(ds)
    ensures forall n :: n in agg.entries ==> agg.entries[n] == Summary(ds, n)
  {
    agg := new Aggregation();
    for i := 0 to |ds|
      invariant agg.Valid()
      invariant Describes(ds[..i], agg.labels, agg.entries)
    {
      TableStep(ds, i, agg.labels, agg.entries, agg.EntryOf(ds[i].name));
      agg.Add(ds[i]);
    }
    assert ds[..|ds|] == ds;
  }

  /** Two equal confidences: the box of the earlier detection is kept. */
  lemma TieKeepsEarlierBox(a: Box, b: Box)
    ensures Summary([RawDetection("fire", 80.0, a), RawDetection("fire", 80.0, b)], "fire")
         == Entry([80.0, 80.0], 80.0, Some(a))
  {
    var r1 := RawDetection("fire", 80.0, a);
    var r2 := RawDetection("fire", 80.0, b);
    var e0: Entry := Summary([], "fire");
    AbsentSummary([], "fire");
    assert e0 == FreshEntry;
    var s1: seq<RawDetection> := [] + [r1];
    SummaryStep([], r1, "fire");
    var e1: Entry := Summary(s1, "fire");
    assert e1 == Extend(e0, r1);
    var s2: seq<RawDetection> := s1 + [r2];
    SummaryStep(s1, r2, "fire");
    assert Summary(s2, "fire") == Extend(e1, r2);
    assert s2 == [r1, r2];
  }
}
