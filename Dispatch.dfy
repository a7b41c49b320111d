/** The decision part of `process_frame` in app.py: after aggregation, every
    label whose maximum confidence reaches 65 has its frame uploaded and, when
    the label has a role, every user of that role who is outside the three-hour
    cooldown gets an alert, which stamps the ledger and produces a detection
    record and, when the record was stored with an id, an alert record.

    The external services are parameters: `upload` gives the public URL of the
    frame uploaded for a label (None when the upload failed), `directory` the
    e-mails of the users whose `role` column holds a given role name, `detectionId` the id the detections table
    returns for an inserted record (None when it returned no row). */
module Dispatch {
  import opened Wrappers
  import opened Roles
  import opened Detections
  import opened Cooldown

  /** The activation threshold, in percent. */
  const Threshold: real := 65.0

  datatype AlertStatus = Sent

  /** The result of the camera query: no row (or a failed query), or the row's
      `location` column, which may be NULL. */
  datatype CameraLookup = NotFound | Found(location: Option<string>)

  /** A row of the detections table. */
  datatype DetectionRecord = DetectionRecord(
    name: string,
    confidence: real,
    timestamp: int,
    location: Option<string>,
    cameraId: string,
    emailSent: bool,
    authorityEmail: string,
    nextEmailAllowedAt: int,
    frameUrl: Option<string>,
    isHighestConfidence: bool,
    confidenceArray: seq<real>,
    boundingBox: Option<Box>)

  /** A row of the alerts table. */
  datatype AlertRecord = AlertRecord(
    detectionId: int,
    authorityEmail: string,
    status: AlertStatus,
    sentAt: int,
    acknowledgedAt: Option<int>)

  /** What one frame does to the outside world, in order: a frame upload for a
      label, or an alert to one recipient (the e-mail, the detection record
      inserted after it and the alert record inserted when the insert gave an id). */
  datatype Action =
    | Upload(name: string, url: Option<string>)
    | Notify(name: string, email: string, detection: DetectionRecord, alert: Option<AlertRecord>)

  /** Everything a frame's dispatch depends on besides the ledger and the table. */
  datatype Context = Context(
    now: int,
    location: Option<string>,
    cameraId: string,
    upload: string -> Option<string>,
    directory: string -> seq<string>,
    detectionId: DetectionRecord -> Option<int>)

  /** The ledger after some dispatch, and the actions taken. */
  type Outcome = (map<Key, int>, seq<Action>)

  // ---------------------------------------------------------------------------
  // The reference description of one frame's dispatch.
  // ---------------------------------------------------------------------------

  function RecordFor(name: string, entry: Entry, email: string, url: Option<string>, ctx: Context): DetectionRecord {
    DetectionRecord(name, entry.max, ctx.now, ctx.location, ctx.cameraId, true, email,
                    ctx.now + Window, url, true, entry.confidences, entry.box)
  }

  /** `if detection_id:` — a missing id and the id 0 are both false. */
  function AlertFor(id: Option<int>, email: string, now: int): Option<AlertRecord> {
    if id.Some? && id.value != 0 then Some(AlertRecord(id.value, email, Sent, now, None)) else None
  }

  /** The alert sent to `email` for label `name`, with its records. */
  function NotifyFor(name: string, entry: Entry, url: Option<string>, email: string, ctx: Context): Action {
    var rec := RecordFor(name, entry, email, url, ctx);
    Notify(name, email, rec, AlertFor(ctx.detectionId(rec), email, ctx.now))
  }

  /** One iteration of the recipient loop. */
  function SendTo(m: map<Key, int>, name: string, entry: Entry, url: Option<string>, email: string, ctx: Context): Outcome {
    if Eligible(m, (name, email), ctx.now) then (m[(name, email) := ctx.now], [NotifyFor(name, entry, url, email, ctx)])
    else (m, [])
  }

  /** The recipient loop over `emails`, in order. */
  function SendAll(m: map<Key, int>, name: string, entry: Entry, url: Option<string>, emails: seq<string>, ctx: Context): Outcome {
    if emails == [] then (m, [])
    else
      var r := SendAll(m, name, entry, url, emails[..|emails| - 1], ctx);
      var s := SendTo(r.0, name, entry, url, emails[|emails| - 1], ctx);
      (s.0, r.1 + s.1)
  }

  /** One iteration of the label loop: threshold, upload, role, recipients. */
  function DispatchLabel(m: map<Key, int>, name: string, entry: Entry, ctx: Context): Outcome {
    if entry.max >= Threshold then
      var url := ctx.upload(name);
      match RoleOf(name)
      case None => (m, [Upload(name, url)])
      case Some(role) =>
        var r := SendAll(m, name, entry, url, ctx.directory(RoleName(role)), ctx);
        (r.0, [Upload(name, url)] + r.1)
    else (m, [])
  }

  /** The label loop over `names`, in order, with the entries of the table built from `ds`. */
  function DispatchAll(m: map<Key, int>, names: seq<string>, ds: seq<RawDetection>, ctx: Context): Outcome {
    if names == [] then (m, [])
    else
      var r := DispatchAll(m, names[..|names| - 1], ds, ctx);
      var n := names[|names| - 1];
      var s := DispatchLabel(r.0, n, Summary(ds, n), ctx);
      (s.0, r.1 + s.1)
  }

  /** A whole frame: a camera query without a row stops before anything happens; a
      camera row is dispatched whatever its location. */
  function FrameOutcome(m: map<Key, int>, cameraId: string, camera: CameraLookup, ds: seq<RawDetection>, now: int,
                        upload: string -> Option<string>, directory: string -> seq<string>,
                        detectionId: DetectionRecord -> Option<int>): Outcome {
    if camera.NotFound? then (m, [])
    else DispatchAll(m, Labels(ds), ds, Context(now, camera.location, cameraId, upload, directory, detectionId))
  }

  // ---------------------------------------------------------------------------
  // Observations on a list of actions.
  // ---------------------------------------------------------------------------

  /** The (label, e-mail) pairs alerted. */
  function SentKeys(acts: seq<Action>): set<Key> {
    set a | a in acts && a.Notify? :: (a.name, a.email)
  }

  /** No (label, e-mail) pair is alerted twice. */
  ghost predicate SentOnce(acts: seq<Action>) {
    forall i, j :: 0 <= i < j < |acts| && acts[i].Notify? && acts[j].Notify? ==>
      (acts[i].name, acts[i].email) != (acts[j].name, acts[j].email)
  }

  /** The labels whose frame was uploaded, in order. */
  function UploadedLabels(acts: seq<Action>): seq<string> {
    if acts == [] then []
    else (if acts[0].Upload? then [acts[0].name] else []) + UploadedLabels(acts[1..])
  }

  /** The labels of `names` whose maximum confidence reaches the threshold, in order. */
  function Actionable(names: seq<string>, ds: seq<RawDetection>): seq<string> {
    if names == [] then []
    else
      var n := names[|names| - 1];
      Actionable(names[..|names| - 1], ds) + (if Summary(ds, n).max >= Threshold then [n] else [])
  }

  /** The pair `k` is routed in this frame: its label is in the table with a
      maximum of at least 65 and routes to a role whose users include the e-mail. */
  ghost predicate Routed(names: seq<string>, ds: seq<RawDetection>, ctx: Context, k: Key) {
    && k.0 in names
    && Summary(ds, k.0).max >= Threshold
    && RoleOf(k.0).Some?
    && k.1 in ctx.directory(RoleName(RoleOf(k.0).value))
  }

  /** The pair `k` is owed an alert in this frame: it is routed, and it is
      outside its cooldown in the ledger as it was before the frame. */
  ghost predicate Owed(m: map<Key, int>, names: seq<string>, ds: seq<RawDetection>, ctx: Context, k: Key) {
    Routed(names, ds, ctx, k) && Eligible(m, k, ctx.now)
  }

  /** An action is backed by the table and the services: its label reached the
      threshold; an upload carries that label's URL; an alert goes to a user of
      the label's role and carries the detection record of the label's entry and
      an alert record exactly when the insert gave a non-zero id. */
  ghost predicate Justified(a: Action, ds: seq<RawDetection>, ctx: Context) {
    var e := Summary(ds, a.name);
    && e.max >= Threshold
    && (a.Upload? ==> a.url == ctx.upload(a.name))
    && (a.Notify? ==>
          && RoleOf(a.name).Some?
          && a.email in ctx.directory(RoleName(RoleOf(a.name).value))
          && a.detection.name == a.name
          && a.detection.confidence == e.max
          && a.detection.confidenceArray == e.confidences
          && a.detection.boundingBox == e.box
          && a.detection.authorityEmail == a.email
          && a.detection.timestamp == ctx.now
          && a.detection.nextEmailAllowedAt == ctx.now + Window
          && a.detection.frameUrl == ctx.upload(a.name)
          && a.detection.location == ctx.location
          && a.detection.cameraId == ctx.cameraId
          && a.detection.emailSent && a.detection.isHighestConfidence
          && var id := ctx.detectionId(a.detection);
             && (a.alert.Some? <==> id.Some? && id.value != 0)
             && (a.alert.Some? ==> a.alert.value == AlertRecord(id.value, a.email, Sent, ctx.now, None)))
  }

  // ---------------------------------------------------------------------------
  // Helpers on action lists.
  // ---------------------------------------------------------------------------

  lemma SentKeysAppend(a: seq<Action>, b: seq<Action>)
    ensures SentKeys(a + b) == SentKeys(a) + SentKeys(b)
  {
  }

  lemma SentOnceAppend(a: seq<Action>, b: seq<Action>)
    requires SentOnce(a) && SentOnce(b) && SentKeys(a) !! SentKeys(b)
    ensures SentOnce(a + b)
  {
    var c := a + b;
    forall i, j | 0 <= i < j < |c| && c[i].Notify? && c[j].Notify?
      ensures (c[i].name, c[i].email) != (c[j].name, c[j].email)
    {
      if j < |a| {
        assert c[i] == a[i] && c[j] == a[j];
      } else if |a| <= i {
        assert c[i] == b[i - |a|] && c[j] == b[j - |a|];
      } else {
        assert c[i] == a[i] && c[i] in a;
        assert c[j] == b[j - |a|] && c[j] in b;
        assert (c[i].name, c[i].email) in SentKeys(a);
        assert (c[j].name, c[j].email) in SentKeys(b);
      }
    }
  }

  lemma {:induction false} UploadedLabelsAppend(a: seq<Action>, b: seq<Action>)
    ensures UploadedLabels(a + b) == UploadedLabels(a) + UploadedLabels(b)
  {
    if a == [] {
      assert a + b == b;
    } else {
      UploadedLabelsAppend(a[1..], b);
      assert (a + b)[1..] == a[1..] + b;
    }
  }

  // ---------------------------------------------------------------------------
  // Properties of the reference description.
  // ---------------------------------------------------------------------------

  /** One recipient: an eligible pair is alerted once and stamped; any other
      pair leaves the ledger and the actions untouched. */
  lemma SendToFacts(m: map<Key, int>, name: string, entry: Entry, url: Option<string>, email: string, ctx: Context)
    ensures var s := SendTo(m, name, entry, url, email, ctx);
      && s.1 == (if Eligible(m, (name, email), ctx.now) then [NotifyFor(name, entry, url, email, ctx)] else [])
      && SentKeys(s.1) == (if Eligible(m, (name, email), ctx.now) then {(name, email)} else {})
      && Stamped(m, s.0, SentKeys(s.1), ctx.now)
      && SentOnce(s.1)
  {
  }

  /** The recipient loop stamps exactly the pairs it alerts. */
  lemma {:induction false} SendAllLedger(m: map<Key, int>, name: string, entry: Entry, url: Option<string>, emails: seq<string>, ctx: Context)
    ensures Stamped(m, SendAll(m, name, entry, url, emails, ctx).0, SentKeys(SendAll(m, name, entry, url, emails, ctx).1), ctx.now)
  {
    if emails != [] {
      var init := emails[..|emails| - 1];
      var e := emails[|emails| - 1];
      SendAllLedger(m, name, entry, url, init, ctx);
      var r := SendAll(m, name, entry, url, init, ctx);
      var s := SendTo(r.0, name, entry, url, e, ctx);
      SendToFacts(r.0, name, entry, url, e, ctx);
      SentKeysAppend(r.1, s.1);
      StampedTwice(m, r.0, s.0, SentKeys(r.1), SentKeys(s.1), ctx.now);
    }
  }

  /** Every action of the recipient loop is the alert, with its records, for a
      listed e-mail. */
  lemma {:induction false} SendAllAlerts(m: map<Key, int>, name: string, entry: Entry, url: Option<string>, emails: seq<string>, ctx: Context)
    ensures forall a :: a in SendAll(m, name, entry, url, emails, ctx).1 ==>
              a.Notify? && a.email in emails && a == NotifyFor(name, entry, url, a.email, ctx)
  {
    if emails != [] {
      var init := emails[..|emails| - 1];
      var e := emails[|emails| - 1];
      SendAllAlerts(m, name, entry, url, init, ctx);
      var r := SendAll(m, name, entry, url, init, ctx);
      SendToFacts(r.0, name, entry, url, e, ctx);
      assert emails == init + [e];
    }
  }

  /** The recipient loop alerts exactly the listed e-mails whose pair was
      eligible before the loop. */
  lemma {:induction false} SendAllExactly(m: map<Key, int>, name: string, entry: Entry, url: Option<string>, emails: seq<string>, ctx: Context)
    ensures forall k :: k in SentKeys(SendAll(m, name, entry, url, emails, ctx).1) <==>
              k.0 == name && k.1 in emails && Eligible(m, k, ctx.now)
  {
    if emails != [] {
      var init := emails[..|emails| - 1];
      var e := emails[|emails| - 1];
      SendAllExactly(m, name, entry, url, init, ctx);
      SendAllLedger(m, name, entry, url, init, ctx);
      var r := SendAll(m, name, entry, url, init, ctx);
      var s := SendTo(r.0, name, entry, url, e, ctx);
      SendToFacts(r.0, name, entry, url, e, ctx);
      assert emails == init + [e];
      SentKeysAppend(r.1, s.1);
      EligibleAfterStamp(m, r.0, SentKeys(r.1), ctx.now, (name, e));
    }
  }

  /** The recipient loop alerts no pair twice: a repeated e-mail meets the
      stamp its first alert left. */
  lemma {:induction false} SendAllOnce(m: map<Key, int>, name: string, entry: Entry, url: Option<string>, emails: seq<string>, ctx: Context)
    ensures SentOnce(SendAll(m, name, entry, url, emails, ctx).1)
  {
    if emails != [] {
      var init := emails[..|emails| - 1];
      var e := emails[|emails| - 1];
      SendAllOnce(m, name, entry, url, init, ctx);
      SendAllLedger(m, name, entry, url, init, ctx);
      var r := SendAll(m, name, entry, url, init, ctx);
      var s := SendTo(r.0, name, entry, url, e, ctx);
      SendToFacts(r.0, name, entry, url, e, ctx);
      EligibleAfterStamp(m, r.0, SentKeys(r.1), ctx.now, (name, e));
      SentOnceAppend(r.1, s.1);
    }
  }

  /** One label: below the threshold nothing is alerted; otherwise the alerts
      are exactly those the recipient loop gives for the role's users, or none
      when the label has no role; the ledger gains exactly those pairs. */
  lemma DispatchLabelLedger(m: map<Key, int>, name: string, ds: seq<RawDetection>, ctx: Context)
    ensures Stamped(m, DispatchLabel(m, name, Summary(ds, name), ctx).0, SentKeys(DispatchLabel(m, name, Summary(ds, name), ctx).1), ctx.now)
    ensures forall k :: k in SentKeys(DispatchLabel(m, name, Summary(ds, name), ctx).1) <==> k.0 == name && Owed(m, [name], ds, ctx, k)
    ensures SentOnce(DispatchLabel(m, name, Summary(ds, name), ctx).1)
  {
    var entry := Summary(ds, name);
    var r := DispatchLabel(m, name, entry, ctx);
    if entry.max >= Threshold {
      var url := ctx.upload(name);
      var up := [Upload(name, url)];
      assert SentKeys(up) == {};
      if RoleOf(name).Some? {
        var emails := ctx.directory(RoleName(RoleOf(name).value));
        SendAllLedger(m, name, entry, url, emails, ctx);
        SendAllExactly(m, name, entry, url, emails, ctx);
        SendAllOnce(m, name, entry, url, emails, ctx);
        var s := SendAll(m, name, entry, url, emails, ctx);
        assert r == (s.0, up + s.1);
        SentKeysAppend(up, s.1);
        SentOnceAppend(up, s.1);
      } else {
        assert r == (m, up);
      }
    } else {
      assert r == (m, []);
    }
  }

  /** The alert built for a user of the label's role is justified. */
  lemma NotifyJustified(name: string, ds: seq<RawDetection>, email: string, ctx: Context)
    requires Summary(ds, name).max >= Threshold
    requires RoleOf(name).Some? && email in ctx.directory(RoleName(RoleOf(name).value))
    ensures Justified(NotifyFor(name, Summary(ds, name), ctx.upload(name), email, ctx), ds, ctx)
  {
  }

  /** One label: every action it takes is justified and carries its label, and
      it uploads the frame once exactly when the label reaches the threshold. */
  lemma DispatchLabelActions(m: map<Key, int>, name: string, ds: seq<RawDetection>, ctx: Context)
    ensures forall a :: a in DispatchLabel(m, name, Summary(ds, name), ctx).1 ==> a.name == name && Justified(a, ds, ctx)
    ensures UploadedLabels(DispatchLabel(m, name, Summary(ds, name), ctx).1) == (if Summary(ds, name).max >= Threshold then [name] else [])
  {
    var entry := Summary(ds, name);
    var r := DispatchLabel(m, name, entry, ctx);
    if entry.max >= Threshold {
      var url := ctx.upload(name);
      var up := [Upload(name, url)];
      if RoleOf(name).Some? {
        var emails := ctx.directory(RoleName(RoleOf(name).value));
        SendAllAlerts(m, name, entry, url, emails, ctx);
        var s := SendAll(m, name, entry, url, emails, ctx);
        assert r == (s.0, up + s.1);
        forall a | a in s.1 ensures a.name == name && Justified(a, ds, ctx) {
          NotifyJustified(name, ds, a.email, ctx);
        }
        UploadedLabelsAppend(up, s.1);
        NoUploads(s.1);
      } else {
        assert r == (m, up);
      }
    } else {
      assert r == (m, []);
    }
  }

  lemma {:induction false} NoUploads(acts: seq<Action>)
    requires forall a :: a in acts ==> a.Notify?
    ensures UploadedLabels(acts) == []
  {
    if acts != [] {
      assert acts[0] in acts;
      forall a | a in acts[1..] ensures a.Notify? {
        assert a in acts;
      }
      NoUploads(acts[1..]);
    }
  }

  /** The ledger after the label loop is the ledger before it with exactly the
      alerted pairs stamped with the frame's time; every alerted pair's label is
      one of the loop's labels. */
  lemma {:induction false} FrameLedger(m: map<Key, int>, names: seq<string>, ds: seq<RawDetection>, ctx: Context)
    ensures var r := DispatchAll(m, names, ds, ctx);
      && Stamped(m, r.0, SentKeys(r.1), ctx.now)
      && (forall k :: k in SentKeys(r.1) ==> k.0 in names)
  {
    if names != [] {
      var init := names[..|names| - 1];
      var n := names[|names| - 1];
      FrameLedger(m, init, ds, ctx);
      var r := DispatchAll(m, init, ds, ctx);
      DispatchLabelLedger(r.0, n, ds, ctx);
      var s := DispatchLabel(r.0, n, Summary(ds, n), ctx);
      SentKeysAppend(r.1, s.1);
      StampedTwice(m, r.0, s.0, SentKeys(r.1), SentKeys(s.1), ctx.now);
    }
  }

  /** Over distinct labels, the pairs alerted in a frame are exactly the pairs
      owed an alert, judged against the ledger as it was before the frame. */
  lemma {:induction false} FrameSentExactly(m: map<Key, int>, names: seq<string>, ds: seq<RawDetection>, ctx: Context)
    requires Distinct(names)
    ensures forall k :: k in SentKeys(DispatchAll(m, names, ds, ctx).1) <==> Owed(m, names, ds, ctx, k)
  {
    if names != [] {
      var init := names[..|names| - 1];
      var n := names[|names| - 1];
      FrameSentExactly(m, init, ds, ctx);
      FrameLedger(m, init, ds, ctx);
      var r := DispatchAll(m, init, ds, ctx);
      DispatchLabelLedger(r.0, n, ds, ctx);
      var s := DispatchLabel(r.0, n, Summary(ds, n), ctx);
      SentKeysAppend(r.1, s.1);
      assert n !in init;
      forall k ensures k in SentKeys(r.1 + s.1) <==> Owed(m, names, ds, ctx, k) {
        EligibleAfterStamp(m, r.0, SentKeys(r.1), ctx.now, k);
        if k.0 == n {
          assert k !in SentKeys(r.1);
          assert Owed(m, names, ds, ctx, k) <==> Owed(r.0, [n], ds, ctx, k);
        } else {
          assert k !in SentKeys(s.1);
          assert Owed(m, names, ds, ctx, k) <==> Owed(m, init, ds, ctx, k);
        }
      }
    }
  }

  /** Over distinct labels, no (label, e-mail) pair is alerted twice in a frame. */
  lemma {:induction false} FrameSentOnce(m: map<Key, int>, names: seq<string>, ds: seq<RawDetection>, ctx: Context)
    requires Distinct(names)
    ensures SentOnce(DispatchAll(m, names, ds, ctx).1)
  {
    if names != [] {
      var init := names[..|names| - 1];
      var n := names[|names| - 1];
      FrameSentOnce(m, init, ds, ctx);
      FrameLedger(m, init, ds, ctx);
      var r := DispatchAll(m, init, ds, ctx);
      DispatchLabelLedger(r.0, n, ds, ctx);
      var s := DispatchLabel(r.0, n, Summary(ds, n), ctx);
      assert n !in init;
      assert SentKeys(r.1) !! SentKeys(s.1);
      SentOnceAppend(r.1, s.1);
    }
  }

  /** Every action of a frame is justified, and the uploads are exactly the
      labels that reach the threshold, in table order. */
  lemma {:induction false} FrameActions(m: map<Key, int>, names: seq<string>, ds: seq<RawDetection>, ctx: Context)
    ensures var r := DispatchAll(m, names, ds, ctx);
      && (forall a :: a in r.1 ==> a.name in names && Justified(a, ds, ctx))
      && UploadedLabels(r.1) == Actionable(names, ds)
  {
    if names != [] {
      var init := names[..|names| - 1];
      var n := names[|names| - 1];
      FrameActions(m, init, ds, ctx);
      var r := DispatchAll(m, init, ds, ctx);
      DispatchLabelActions(r.0, n, ds, ctx);
      var s := DispatchLabel(r.0, n, Summary(ds, n), ctx);
      UploadedLabelsAppend(r.1, s.1);
    }
  }

  /** What one frame guarantees. With an unknown camera nothing happens. A known
      camera is dispatched even when its location is NULL. Then the ledger gains
      exactly the alerted pairs, stamped with the frame's time; the alerted
      pairs are exactly those owed an alert; no pair is alerted twice; every
      action is justified, so its records carry the camera's location as found,
      None included; and the frame is uploaded once for each label reaching the
      threshold, in order of first detection. */
  lemma FrameGuarantees(m: map<Key, int>, cameraId: string, camera: CameraLookup, ds: seq<RawDetection>, now: int,
                        upload: string -> Option<string>, directory: string -> seq<string>,
                        detectionId: DetectionRecord -> Option<int>)
    ensures var r := FrameOutcome(m, cameraId, camera, ds, now, upload, directory, detectionId);
      camera.NotFound? ==> r == (m, [])
    ensures var r := FrameOutcome(m, cameraId, camera, ds, now, upload, directory, detectionId);
      camera.Found? ==>
        var ctx := Context(now, camera.location, cameraId, upload, directory, detectionId);
        && Stamped(m, r.0, SentKeys(r.1), now)
        && (forall k :: k in SentKeys(r.1) <==> Owed(m, Labels(ds), ds, ctx, k))
        && SentOnce(r.1)
        && (forall a :: a in r.1 ==> Justified(a, ds, ctx))
        && (forall a :: a in r.1 && a.Notify? ==> a.detection.location == camera.location)
        && UploadedLabels(r.1) == Actionable(Labels(ds), ds)
  {
    if camera.Found? {
      var ctx := Context(now, camera.location, cameraId, upload, directory, detectionId);
      LabelsExactly(ds);
      FrameLedger(m, Labels(ds), ds, ctx);
      FrameSentExactly(m, Labels(ds), ds, ctx);
      FrameSentOnce(m, Labels(ds), ds, ctx);
      FrameActions(m, Labels(ds), ds, ctx);
    }
  }

  /** Across two frames: a pair alerted by a frame at `t0` is alerted by a later
      frame at `t1` exactly when that frame's camera is known, the pair is routed
      in it, and strictly more than three hours have passed. */
  lemma CooldownAcrossFrames(m: map<Key, int>, k: Key,
                             cameraId: string, camera: CameraLookup, ds: seq<RawDetection>, t0: int,
                             cameraId': string, camera': CameraLookup, ds': seq<RawDetection>, t1: int,
                             upload: string -> Option<string>, directory: string -> seq<string>,
                             detectionId: DetectionRecord -> Option<int>)
    requires k in SentKeys(FrameOutcome(m, cameraId, camera, ds, t0, upload, directory, detectionId).1)
    ensures var m1 := FrameOutcome(m, cameraId, camera, ds, t0, upload, directory, detectionId).0;
      k in SentKeys(FrameOutcome(m1, cameraId', camera', ds', t1, upload, directory, detectionId).1) <==>
        && camera'.Found?
        && Routed(Labels(ds'), ds', Context(t1, camera'.location, cameraId', upload, directory, detectionId), k)
        && t1 > t0 + Window
  {
    var r := FrameOutcome(m, cameraId, camera, ds, t0, upload, directory, detectionId);
    FrameGuarantees(m, cameraId, camera, ds, t0, upload, directory, detectionId);
    assert camera.Found?;
    assert k in r.0 && r.0[k] == t0;
    FrameGuarantees(r.0, cameraId', camera', ds', t1, upload, directory, detectionId);
  }

  // ---------------------------------------------------------------------------
  // The imperative code.
  // ---------------------------------------------------------------------------

  /** The recipient loop for one label, checking and stamping the shared ledger. */
  method SendToAll(ledger: Ledger, name: string, entry: Entry, url: Option<string>, emails: seq<string>, ctx: Context)
    returns (acts: seq<Action>)
    modifies ledger
    ensures (ledger.lastSent, acts) == SendAll(old(ledger.lastSent), name, entry, url, emails, ctx)
  {
    acts := [];
    for j := 0 to |emails|
      invariant (ledger.lastSent, acts) == SendAll(old(ledger.lastSent), name, entry, url, emails[..j], ctx)
    {
      assert emails[..j + 1][..j] == emails[..j];
      ghost var before := ledger.lastSent;
      ghost var step := SendTo(before, name, entry, url, emails[j], ctx);
      var email := emails[j];
      var ok := ledger.IsEligible((name, email), ctx.now);
      if ok {
        // The e-mail itself is sent here; its failures are swallowed.
        ledger.MarkSent((name, email), ctx.now);
        var rec := RecordFor(name, entry, email, url, ctx);
        var id := ctx.detectionId(rec);
        acts := acts + [Notify(name, email, rec, AlertFor(id, email, ctx.now))];
        assert step == (ledger.lastSent, [NotifyFor(name, entry, url, email, ctx)]);
      } else {
        assert step == (before, []);
        assert acts + step.1 == acts;
      }
    }
    assert emails[..|emails|] == emails;
  }

  /** One pass of the label loop: the threshold check, the upload, the role
      lookup and the recipient loop. */
  method DispatchOne(ledger: Ledger, name: string, entry: Entry, ctx: Context) returns (acts: seq<Action>)
    modifies ledger
    ensures (ledger.lastSent, acts) == DispatchLabel(old(ledger.lastSent), name, entry, ctx)
  {
    acts := [];
    if entry.max >= Threshold {
      var url := ctx.upload(name);
      acts := [Upload(name, url)];
      var role := RoleOf(name);
      if role.Some? {
        var sent := SendToAll(ledger, name, entry, url, ctx.directory(RoleName(role.value)), ctx);
        acts := acts + sent;
      }
    }
  }

  /** `process_frame` from the camera lookup on: aggregate the detections, then
      walk the labels in table order. */
  method ProcessFrame(ledger: Ledger, cameraId: string, camera: CameraLookup, ds: seq<RawDetection>, now: int,
                      upload: string -> Option<string>, directory: string -> seq<string>,
                      detectionId: DetectionRecord -> Option<int>)
    returns (acts: seq<Action>)
    modifies ledger
    ensures (ledger.lastSent, acts) == FrameOutcome(old(ledger.lastSent), cameraId, camera, ds, now, upload, directory, detectionId)
  {
    if camera.NotFound? {
      return [];
    }
    var ctx := Context(now, camera.location, cameraId, upload, directory, detectionId);
    var agg := Aggregate(ds);
    var labels, entries := agg.labels, agg.entries;
    assert forall n :: n in labels ==> n in entries && entries[n] == Summary(ds, n);
    acts := [];
    for i := 0 to |labels|
      modifies ledger
      invariant (ledger.lastSent, acts) == DispatchAll(old(ledger.lastSent), labels[..i], ds, ctx)
    {
      assert labels[..i + 1][..i] == labels[..i];
      var name := labels[i];
      var more := DispatchOne(ledger, name, entries[name], ctx);
      acts := acts + more;
    }
    assert labels[..|labels|] == labels;
  }
}
