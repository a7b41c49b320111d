/** Worked frames: two fire detections and a weak smoke detection; one gun
    detection routed to two officers. */
module Scenarios {
  import opened Wrappers
  import opened Roles
  import opened Detections
  import opened Cooldown
  import opened Dispatch

  /** The table built from fire 70, fire 80, smoke 50. */
  lemma FireAndSmokeTable(a: Box, b: Box, c: Box)
    ensures var ds := [RawDetection("fire", 70.0, a), RawDetection("fire", 80.0, b), RawDetection("smoke", 50.0, c)];
      && Labels(ds) == ["fire", "smoke"]
      && Summary(ds, "fire") == Entry([70.0, 80.0], 80.0, Some(b))
      && Summary(ds, "smoke") == Entry([50.0], 50.0, Some(c))
  {
    var d1 := RawDetection("fire", 70.0, a);
    var d2 := RawDetection("fire", 80.0, b);
    var d3 := RawDetection("smoke", 50.0, c);
    var s1: seq<RawDetection> := [] + [d1];
    var s2: seq<RawDetection> := s1 + [d2];
    var s3: seq<RawDetection> := s2 + [d3];
    assert s3 == [d1, d2, d3];
    assert s3[..2] == s2 && s2[..1] == s1 && s1[..0] == [];
    AbsentSummary([], "fire");
    AbsentSummary([], "smoke");
    SummaryStep([], d1, "fire");
    SummaryStep([], d1, "smoke");
    assert Summary(s1, "fire") == Entry([70.0], 70.0, Some(a));
    assert Summary(s1, "smoke") == FreshEntry;
    SummaryStep(s1, d2, "fire");
    SummaryStep(s1, d2, "smoke");
    assert Summary(s2, "fire") == Entry([70.0, 80.0], 80.0, Some(b));
    assert Summary(s2, "smoke") == FreshEntry;
    SummaryStep(s2, d3, "fire");
    SummaryStep(s2, d3, "smoke");
    assert Labels(s1) == ["fire"];
    assert Labels(s2) == ["fire"];
    assert Labels(s3) == ["fire", "smoke"];
  }

  /** With fire 70, fire 80 and smoke 50, only fire is acted on: the frame is
      uploaded once, for fire, and no action of the frame concerns smoke. */
  lemma SmokeBelowThresholdIsIgnored(m: map<Key, int>, cameraId: string, location: Option<string>, now: int, a: Box, b: Box, c: Box,
                                     upload: string -> Option<string>, directory: string -> seq<string>,
                                     detectionId: DetectionRecord -> Option<int>)
    ensures var ds := [RawDetection("fire", 70.0, a), RawDetection("fire", 80.0, b), RawDetection("smoke", 50.0, c)];
      var r := FrameOutcome(m, cameraId, Found(location), ds, now, upload, directory, detectionId);
      && UploadedLabels(r.1) == ["fire"]
      && forall x :: x in r.1 ==> x.name == "fire"
  {
    var ds := [RawDetection("fire", 70.0, a), RawDetection("fire", 80.0, b), RawDetection("smoke", 50.0, c)];
    FireAndSmokeTable(a, b, c);
    FireOnlyFrame(m, Labels(ds), ds, Context(now, location, cameraId, upload, directory, detectionId));
  }

  /** Any frame whose table holds fire at 80 and smoke at 50, in that order. */
  lemma FireOnlyFrame(m: map<Key, int>, names: seq<string>, ds: seq<RawDetection>, ctx: Context)
    requires names == ["fire", "smoke"]
    requires Summary(ds, "fire").max == 80.0 && Summary(ds, "smoke").max == 50.0
    ensures var r := DispatchAll(m, names, ds, ctx);
      && UploadedLabels(r.1) == ["fire"]
      && forall x :: x in r.1 ==> x.name == "fire"
  {
    FrameActions(m, names, ds, ctx);
    var r := DispatchAll(m, names, ds, ctx);
    forall x | x in r.1 ensures x.name == "fire" {
      assert x.name in names && Justified(x, ds, ctx);
    }
    assert names[..1] == ["fire"] && names[..1][..0] == [];
    assert Actionable(names[..1][..0], ds) == [];
    assert Actionable(names[..1], ds) == ["fire"];
    assert Actionable(names, ds) == ["fire"];
  }

  /** The table built from one gun detection, and the gun's role. */
  lemma GunTable(box: Box)
    ensures Labels([RawDetection("gun", 90.0, box)]) == ["gun"]
    ensures Summary([RawDetection("gun", 90.0, box)], "gun").max == 90.0
    ensures RoleOf("gun") == Some(LawEnforcement)
  {
    var d := RawDetection("gun", 90.0, box);
    var ds := [d];
    assert [] + [d] == ds && ds[..0] == [];
    AbsentSummary([], "gun");
    SummaryStep([], d, "gun");
    var t := ToLower("gun");
    assert t[0] == 'g' && t[1] == 'u' && t[2] == 'n';
    assert t == "gun";
  }

  /** In a frame whose only label is a gun at 90 %, the pairs owed an alert are
      the gun paired with each law-enforcement user that is out of cooldown. */
  lemma GunOwed(m: map<Key, int>, names: seq<string>, ds: seq<RawDetection>, ctx: Context, e1: string, e2: string)
    requires forall n :: n in names <==> n == "gun"
    requires Summary(ds, "gun").max == 90.0 && RoleOf("gun") == Some(LawEnforcement)
    requires ctx.directory("law_enforcement") == [e1, e2]
    ensures forall k :: Owed(m, names, ds, ctx, k) <==> (k == ("gun", e1) || k == ("gun", e2)) && Eligible(m, k, ctx.now)
  {
  }

  /** A gun seen with 90% goes to both law-enforcement users when neither has a
      ledger entry, and the ledger records both at the frame's time. */
  lemma GunReachesBothOfficers(m: map<Key, int>, cameraId: string, location: Option<string>, now: int, box: Box,
                               e1: string, e2: string,
                               upload: string -> Option<string>, directory: string -> seq<string>,
                               detectionId: DetectionRecord -> Option<int>)
    requires directory("law_enforcement") == [e1, e2]
    requires ("gun", e1) !in m && ("gun", e2) !in m
    ensures var r := FrameOutcome(m, cameraId, Found(location), [RawDetection("gun", 90.0, box)], now, upload, directory, detectionId);
      && SentKeys(r.1) == {("gun", e1), ("gun", e2)}
      && ("gun", e1) in r.0 && r.0[("gun", e1)] == now
      && ("gun", e2) in r.0 && r.0[("gun", e2)] == now
  {
    var ds := [RawDetection("gun", 90.0, box)];
    GunTable(box);
    var ctx := Context(now, location, cameraId, upload, directory, detectionId);
    GunFrameSent(m, Labels(ds), ds, ctx, e1, e2);
    GunFrameLedger(m, Labels(ds), ds, ctx, e1, e2);
  }

  /** The gun frame over any table whose only label is a gun at 90 %: both
      officers are alerted. */
  lemma GunFrameSent(m: map<Key, int>, names: seq<string>, ds: seq<RawDetection>, ctx: Context, e1: string, e2: string)
    requires Distinct(names) && forall n :: n in names <==> n == "gun"
    requires Summary(ds, "gun").max == 90.0 && RoleOf("gun") == Some(LawEnforcement)
    requires ctx.directory("law_enforcement") == [e1, e2]
    requires ("gun", e1) !in m && ("gun", e2) !in m
    ensures SentKeys(DispatchAll(m, names, ds, ctx).1) == {("gun", e1), ("gun", e2)}
  {
    FrameSentExactly(m, names, ds, ctx);
    GunOwed(m, names, ds, ctx, e1, e2);
    var sent := SentKeys(DispatchAll(m, names, ds, ctx).1);
    forall k ensures k in sent <==> k in {("gun", e1), ("gun", e2)} {
      assert Owed(m, names, ds, ctx, k) <==> k == ("gun", e1) || k == ("gun", e2);
    }
  }

  /** The gun frame stamps both officers' entries with the frame's time. */
  lemma GunFrameLedger(m: map<Key, int>, names: seq<string>, ds: seq<RawDetection>, ctx: Context, e1: string, e2: string)
    requires SentKeys(DispatchAll(m, names, ds, ctx).1) == {("gun", e1), ("gun", e2)}
    ensures var r := DispatchAll(m, names, ds, ctx);
      && ("gun", e1) in r.0 && r.0[("gun", e1)] == ctx.now
      && ("gun", e2) in r.0 && r.0[("gun", e2)] == ctx.now
  {
    FrameLedger(m, names, ds, ctx);
  }

  /** The same gun seen again an hour later alerts nobody. */
  lemma GunAgainWithinTheHour(m: map<Key, int>, cameraId: string, location: Option<string>, now: int, box: Box,
                              e1: string, e2: string,
                              upload: string -> Option<string>, directory: string -> seq<string>,
                              detectionId: DetectionRecord -> Option<int>)
    requires directory("law_enforcement") == [e1, e2]
    requires ("gun", e1) !in m && ("gun", e2) !in m
    ensures var ds := [RawDetection("gun", 90.0, box)];
      var m1 := FrameOutcome(m, cameraId, Found(location), ds, now, upload, directory, detectionId).0;
      SentKeys(FrameOutcome(m1, cameraId, Found(location), ds, now + 3600, upload, directory, detectionId).1) == {}
  {
    var ds := [RawDetection("gun", 90.0, box)];
    GunTable(box);
    GunReachesBothOfficers(m, cameraId, location, now, box, e1, e2, upload, directory, detectionId);
    var m1 := FrameOutcome(m, cameraId, Found(location), ds, now, upload, directory, detectionId).0;
    var ctx := Context(now + 3600, location, cameraId, upload, directory, detectionId);
    var names := Labels(ds);
    FrameSentExactly(m1, names, ds, ctx);
    GunOwed(m1, names, ds, ctx, e1, e2);
    assert !Eligible(m1, ("gun", e1), now + 3600) && !Eligible(m1, ("gun", e2), now + 3600);
  }

  /** A known camera whose location is NULL still dispatches: both officers are
      alerted and their detection records carry no location. */
  lemma GunAtCameraWithoutLocation(m: map<Key, int>, cameraId: string, now: int, box: Box,
                                   e1: string, e2: string,
                                   upload: string -> Option<string>, directory: string -> seq<string>,
                                   detectionId: DetectionRecord -> Option<int>)
    requires directory("law_enforcement") == [e1, e2]
    requires ("gun", e1) !in m && ("gun", e2) !in m
    ensures var r := FrameOutcome(m, cameraId, Found(None), [RawDetection("gun", 90.0, box)], now, upload, directory, detectionId);
      && SentKeys(r.1) == {("gun", e1), ("gun", e2)}
      && forall a :: a in r.1 && a.Notify? ==> a.detection.location == None
  {
    GunReachesBothOfficers(m, cameraId, None, now, box, e1, e2, upload, directory, detectionId);
    FrameGuarantees(m, cameraId, Found(None), [RawDetection("gun", 90.0, box)], now, upload, directory, detectionId);
  }
}
