# Smart-city alert dispatch, modelled in Dafny

This project models the per-frame decision pipeline of a Flask service that runs
an object detector on a camera frame and e-mails alerts to the authorities
(`process_frame` in app.py, with the process-wide `last_email_sent` dictionary).
One frame goes through these steps:

1. **Aggregation.** The raw `(label, confidence, box)` detections are folded into
   the dictionary `detections_confidence`, with one entry per label. An entry
   keeps every confidence of its label in input order. It also keeps the largest
   confidence, starting from 0, and the box of the detection that last raised that
   maximum. The comparison is a strict `>`, so on a tie the earlier box stays.
2. **Threshold.** Only labels whose maximum is at least 65 go on. For each of them
   the frame is uploaded.
3. **Routing.** The lower-cased label is looked up in a fixed five-entry table
   (fire and smoke go to `fire_department`, gun to `law_enforcement`, accident to
   `medical_services`, pothole to `road_maintenance`). A label outside the table
   is skipped silently. The users of the role come from the users table.
4. **Cooldown.** A (label, e-mail) pair is alerted only if it has no ledger entry,
   or if strictly more than three hours have passed since its entry. An alert
   stamps the ledger with the frame's time, whether or not the e-mail went out.
   It then inserts a detection record. An alert record follows only when that
   insert returned an id.

Files:

- `Wrappers.dfy`: `Option` and `Distinct`.
- `Roles.dfy`: the role table, ASCII lower-casing and `RoleOf`.
- `Detections.dfy`: the dictionary as the class `Aggregation` (insertion order in
  `labels`, contents in `entries`). It also holds the aggregation loop `Aggregate`
  and a reference description of the finished table (`Labels`, `Confidences`,
  `MaxConfidence`, `BestBox`, `Summary`) that does not follow the loop. The loop is
  proved equal to that description.
- `Cooldown.dfy`: the ledger as the class `Ledger` over `map<(label, email), int>`,
  with the three-hour window in seconds.
- `Dispatch.dfy`: a functional description of one frame's dispatch (`SendTo`,
  `SendAll`, `DispatchLabel`, `DispatchAll`, `FrameOutcome`). It also holds the
  imperative loops `SendToAll`, `DispatchOne` and `ProcessFrame`, each proved to
  produce exactly that outcome, and the lemmas about the outcome.
- `Scenarios.dfy`: worked frames.

A frame's effects on the outside world are returned as a list of `Action`s in
order. An `Upload` is one frame upload for a label. A `Notify` is one alert: the
e-mail, the detection record inserted after it, and the alert record, if any.

## Model

| member | source | states |
|---|---|---|
| Roles.RoleNamesDistinct | app.py:82-88 | the four role names stored in the users table are distinct, so one role's users query never returns another role's users |
| Roles.ToLower | app.py:119 | the key is the label with every ASCII capital replaced by its lower-case letter, same length, and it holds no capital |
| Roles.RoleIgnoresCase | app.py:119 | a label and its lower-cased form route to the same role |
| Roles.KnownLabels | app.py:82-88 | exactly the five table labels, in any letter case, have a role: fire and smoke give the fire department, gun law enforcement, accident medical services, pothole road maintenance |
| Roles.CapitalisedLabelRoutes | app.py:119-120 | "Fire" routes to the fire department, like the table key "fire" |
| Roles.UnknownLabelUnrouted | app.py:119-120 | "litter" has no role |
| Detections.Aggregation.constructor | app.py:80 | the dictionary starts empty |
| Detections.Aggregation.Add | app.py:106-111 | an unseen label gets the entry ([], 0, None) at the end of the insertion order; the confidence is appended; a strictly larger confidence replaces the maximum and the box; no other label changes |
| Detections.Aggregate | app.py:102-111 | after the loop the dictionary lists the labels of the input once each, in order of first occurrence, and each label's entry is its reference summary (`Summary`) |
| Detections.TableStep | app.py:106-111 | one loop step on a table that equals the reference description of the first i detections gives the reference description of the first i + 1 |
| Detections.SummaryStep | app.py:106-111 | one more detection changes the reference summary of its own label by exactly one loop step and leaves every other label unchanged |
| Detections.AbsentSummary | app.py:106-107 | a label with no detection has the summary of a newly created entry |
| Detections.LabelsExactly | app.py:106-107 | the table's labels are distinct, and a label is in the table exactly when it has at least one confidence |
| Detections.ConfidencesExactly | app.py:108 | a value is among a label's confidences exactly when some detection of that label carries it |
| Detections.ConfidencesAppend | app.py:108 | the confidences of two stretches of input are those of the first followed by those of the second, so input order is kept |
| Detections.MaxConfidenceIsMax | app.py:107-110 | the maximum is at least 0, at least every confidence of the label, and is either 0 or one of those confidences |
| Detections.BestBoxIsFirstMaximum | app.py:109-111 | the box is absent exactly when the maximum stayed 0; otherwise it is the box of the first detection of the label whose confidence equals the maximum |
| Detections.TieKeepsEarlierBox | app.py:109-111 | two detections of 80 keep the first detection's box |
| Cooldown.Ledger.constructor | app.py:21 | the ledger starts empty |
| Cooldown.Ledger.IsEligible | app.py:129-130 | eligible exactly when the pair has no entry or strictly more than 10800 seconds have passed since it |
| Cooldown.Ledger.MarkSent | app.py:160 | the pair's entry becomes the current time, the pair is then suppressed, and every other pair's entry and eligibility are unchanged |
| Cooldown.SuppressedForWindow | app.py:129-130 | after a stamp at t0 the pair is eligible at t exactly when t > t0 + 3 h |
| Cooldown.WindowBoundary | app.py:130 | 2 h 59 min and exactly 3 h after a stamp are suppressed; 3 h 0 min 1 s is eligible |
| Cooldown.EligibleAfterStamp | app.py:129-130 | after stamping a set of pairs with the current time, those pairs are suppressed and every other pair keeps its eligibility |
| Dispatch.SendToFacts | app.py:129-160 | one recipient: an eligible pair gets exactly one alert and its entry is stamped; an ineligible pair gets nothing and the ledger is unchanged |
| Dispatch.SendAllLedger | app.py:127-160 | the recipient loop stamps exactly the pairs it alerts, with the frame's time, and leaves every other entry as it was |
| Dispatch.SendAllAlerts | app.py:127-188 | each action of the recipient loop is the alert, with its records, for a listed e-mail |
| Dispatch.SendAllExactly | app.py:127-130 | the recipient loop alerts exactly the listed e-mails that were eligible before it |
| Dispatch.SendAllOnce | app.py:127-160 | no pair is alerted twice by the recipient loop: a repeated e-mail meets its own fresh stamp (0 s is not more than 3 h) |
| Dispatch.DispatchLabelLedger | app.py:113-130 | one label: the ledger gains exactly the alerted pairs; these are exactly the pairs owed an alert (maximum of at least 65, a role, a listed e-mail, eligible); none twice |
| Dispatch.NotifyJustified | app.py:162-188 | an alert for a user of the label's role carries the label, the maximum, the confidence list, the box, the e-mail, the frame time, time + 3 h as next allowed time, the frame URL, the camera and location, and an alert record (status sent, not acknowledged) exactly when the insert gave a non-zero id |
| Dispatch.DispatchLabelActions | app.py:113-125 | one label: every action carries the label and is justified; the frame is uploaded once exactly when the maximum is at least 65, even when the label has no role |
| Dispatch.FrameLedger | app.py:113-160 | after the label loop the ledger is the old one with exactly the alerted pairs stamped with the frame's time |
| Dispatch.FrameSentExactly | app.py:113-130 | over the table's labels, the alerted pairs are exactly the pairs owed an alert, judged against the ledger as it was before the frame |
| Dispatch.FrameSentOnce | app.py:127-130 | no (label, e-mail) pair is alerted twice in one frame |
| Dispatch.FrameActions | app.py:113-117 | every action of a frame is justified, so a label under 65 causes nothing; the uploads are exactly the labels reaching 65, in table order |
| Dispatch.FrameGuarantees | app.py:91-99 | a camera query without a row (or a failed query) changes nothing and does nothing; a camera row is dispatched even when its location is NULL, all the frame properties above hold for the aggregated table, and every detection record carries the location as found, None included |
| Dispatch.CooldownAcrossFrames | app.py:129-130 | a pair alerted at t0 is alerted by a later frame at t1 exactly when that frame's camera row exists, the pair is routed in it, and t1 > t0 + 3 h |
| Dispatch.SendToAll | app.py:127-188 | the recipient loop over the shared ledger produces exactly the ledger and the alerts of `SendAll` |
| Dispatch.DispatchOne | app.py:113-125 | one pass of the label loop produces exactly the ledger and the actions of `DispatchLabel` |
| Dispatch.ProcessFrame | app.py:77-191 | the whole frame, aggregation included, produces exactly the ledger and the actions of `FrameOutcome` |
| Scenarios.FireAndSmokeTable | app.py:102-111 | fire 70, fire 80, smoke 50 give the table fire: [70, 80], max 80, second box; smoke: [50], max 50 |
| Scenarios.SmokeBelowThresholdIsIgnored | app.py:113-114 | with that table only fire is uploaded and no action concerns smoke |
| Scenarios.GunReachesBothOfficers | app.py:119-160 | a gun at 90 % with two law-enforcement users and no ledger entries alerts both, and both entries become the frame's time |
| Scenarios.GunAtCameraWithoutLocation | app.py:93-96 | a camera row whose location is NULL still alerts both officers, and their detection records carry no location |
| Scenarios.GunAgainWithinTheHour | app.py:129-130 | the same gun one hour later alerts nobody |

## Behaviour of the code worth knowing

- The maximum starts at 0, not at the first confidence. A label whose
  confidences are all 0 (or below) has maximum 0 and no box (`BestBox` is None).
- An alert record is written only when the detection insert returns a truthy id
  (`if detection_id:`). So an id of 0 skips it just as a missing id does
  (`Dispatch.AlertFor`).
- The threshold 65 and the three-hour window are constants in the code, not
  configuration.
- A camera row whose `location` is NULL does not stop the frame. Its alerts go
  out and their detection records carry no location (`CameraLookup.Found(None)`).
- The frame is uploaded for every label reaching 65. That includes labels with no
  role and labels whose recipients are all in cooldown.
- Check-then-stamp on the ledger is not atomic. The model treats one frame as one
  sequential method and claims nothing about concurrent frames.

## Left out

- Roles.ToLower: lower-cases ASCII letters only. Python's `str.lower()` also folds other Unicode letters, so a non-ASCII label that lower-cases into a table key is not routed by the model.
- Object detection (`model.predict`, `model.names`, tensor conversion) is foreign code. The detections of a frame are an input sequence.
- The camera query is database I/O. Its result is the `camera` parameter. `NotFound` stands for both "no row" and a failed query, which end the frame the same way. `Found(location)` carries the row's `location` column, None when it is NULL.
- The frame upload is storage I/O. Its result is the `upload` parameter, keyed by label. The file-name format and the write-only `uploaded_urls` dictionary are not modelled.
- The users query is database I/O. Its result is the `directory` parameter, keyed by the role name the query filters on (`RoleName`). An empty result and the explicit `continue` behave the same.
- The detection and alert inserts are database I/O. The id returned for a detection record is the `detectionId` parameter, a function of the record. The alert insert's own result is ignored by the code and by the model.
- `send_email` (SMTP, subject and body text) is network I/O and string formatting. It swallows every error, so it has no effect on the ledger or the records. Only the fact of the alert is modelled.
- The `except` block that drops the rest of a label's recipients when a library call raises is not modelled. Every external call is taken to return.
- Flask routing, request validation and image decoding are web plumbing.
- Floating-point confidences are reals, and `datetime` values are whole seconds. ISO-format strings are those same seconds.
- Logging (`print`) has no effect on the outcome.
