/** FingerprintController. Its actions talk to the reader directly, without the connection
    manager: Connect_Net, EnableDevice(false), the template calls, and EnableDevice(true) and
    Disconnect in finally. A failed connection is answered with 400. */
module FingerprintController {
  import opened Common
  import opened Text
  import opened Reader

  const SavedMessage: string := "Odciski palców zostały zapisane pomyślnie"
  const FingerCount: int := 10

  datatype FingerprintData = FingerprintData(fingerIndex: int, flag: int, templateData: string, templateLength: int)
  datatype UserFingerprints = UserFingerprints(enrollNumber: string, fingerprints: seq<FingerprintData>)
  datatype BulkOperationResult = BulkOperationResult(enrollNumber: string, success: bool, errors: seq<string>)

  // ---------------------------------------------------------------------------------------
  // get

  predicate Readable(templates: map<(string, int), Template>, refuses: set<Call>, enroll: string, finger: int) {
    (enroll, finger) in templates && ReadTemplate(enroll, finger) !in refuses
  }

  function Entry(finger: int, t: Template): FingerprintData {
    FingerprintData(finger, t.flag, t.data, |t.data|)
  }

  /** The fingerprints the loop collects from fingers 0 .. n-1. */
  function Fingers(templates: map<(string, int), Template>, refuses: set<Call>, enroll: string, n: nat)
    : seq<FingerprintData>
  {
    if n == 0 then []
    else Fingers(templates, refuses, enroll, n - 1)
         + (if Readable(templates, refuses, enroll, n - 1) then [Entry(n - 1, templates[(enroll, n - 1)])] else [])
  }

  /** The GetUserTmpExStr calls for fingers 0 .. n-1, in order. */
  function Reads(enroll: string, n: nat): (r: seq<Event>)
    ensures |r| == n
  {
    if n == 0 then [] else Reads(enroll, n - 1) + [TemplateRead(enroll, n - 1)]
  }

  /** The list holds exactly the readable fingers below n, each once, by ascending finger
      index, each with the stored template and its length. */
  lemma {:induction false} FingersSpec(templates: map<(string, int), Template>, refuses: set<Call>, enroll: string, n: nat)
    ensures var f := Fingers(templates, refuses, enroll, n);
      |f| <= n
      && (forall j | 0 <= j < |f| :: 0 <= f[j].fingerIndex < n && Readable(templates, refuses, enroll, f[j].fingerIndex)
                                     && f[j] == Entry(f[j].fingerIndex, templates[(enroll, f[j].fingerIndex)]))
      && (forall j, k | 0 <= j < k < |f| :: f[j].fingerIndex < f[k].fingerIndex)
      && (forall i | 0 <= i < n && Readable(templates, refuses, enroll, i) :: exists j | 0 <= j < |f| :: f[j].fingerIndex == i)
  {
    if n > 0 {
      FingersSpec(templates, refuses, enroll, n - 1);
      var p := Fingers(templates, refuses, enroll, n - 1);
      var f := Fingers(templates, refuses, enroll, n);
      assert forall j | 0 <= j < |p| :: f[j] == p[j];
      if Readable(templates, refuses, enroll, n - 1) {
        assert f[|p|].fingerIndex == n - 1;
      }
    }
  }

  /** GetFingerprints: the readable templates of fingers 0 to 9. */
  method GetFingerprints(d: Device, ip: string, port: int, enroll: string) returns (r: Response<seq<FingerprintData>>)
    modifies d`connected, d`enabled, d`trace
    ensures Connect in d.refuses ==> r == BadRequest(ConnectFailedMessage) && d.trace == old(d.trace) + [Connected(false)]
    ensures Connect !in d.refuses ==>
      r == Ok(Fingers(d.templates, d.refuses, enroll, FingerCount as nat))
      && d.trace == old(d.trace) + Bracket(true, [TemplatesLoaded] + Reads(enroll, FingerCount as nat))
      && d.enabled && !d.connected
  {
    var connected := d.ConnectNet(ip, port);
    if !connected {
      return BadRequest(ConnectFailedMessage);
    }
    var _ := d.EnableDevice(false);
    var fingerprints: seq<FingerprintData> := [];
    var _ := d.ReadAllTemplate();
    ghost var afterOpen := d.trace;
    var i := 0;
    while i < FingerCount
      invariant 0 <= i <= FingerCount
      invariant fingerprints == Fingers(d.templates, d.refuses, enroll, i)
      invariant d.trace == afterOpen + Reads(enroll, i) && d.connected
    {
      var t := d.GetUserTemplate(enroll, i);
      if t.Some? {
        fingerprints := fingerprints + [FingerprintData(i, t.value.flag, t.value.data, |t.value.data|)];
      }
      i := i + 1;
    }
    r := Ok(fingerprints);
    var _ := d.EnableDevice(true);
    d.Disconnect();
  }

  // ---------------------------------------------------------------------------------------
  // set

  predicate Writable(refuses: set<Call>, enroll: string, fp: FingerprintData) {
    WriteTemplate(enroll, fp.fingerIndex) !in refuses
  }

  /** The templates after every write of fps, in order; a refused write changes nothing. */
  function Written(templates: map<(string, int), Template>, refuses: set<Call>, enroll: string, fps: seq<FingerprintData>)
    : map<(string, int), Template>
  {
    if fps == [] then templates
    else
      var t := Written(templates, refuses, enroll, fps[..|fps| - 1]);
      var fp := fps[|fps| - 1];
      if Writable(refuses, enroll, fp) then t[(enroll, fp.fingerIndex) := Template(fp.flag, fp.templateData)] else t
  }

  /** The SetUserTmpExStr calls for fps, in order. */
  function Writes(refuses: set<Call>, enroll: string, fps: seq<FingerprintData>): (r: seq<Event>)
    ensures |r| == |fps|
  {
    if fps == [] then []
    else
      var fp := fps[|fps| - 1];
      Writes(refuses, enroll, fps[..|fps| - 1]) + [TemplateWritten(enroll, fp.fingerIndex, Writable(refuses, enroll, fp))]
  }

  /** The position of the first refused write. */
  function FirstRefused(refuses: set<Call>, enroll: string, fps: seq<FingerprintData>): (r: Option<nat>)
    ensures r.None? <==> forall k | 0 <= k < |fps| :: Writable(refuses, enroll, fps[k])
    ensures r.Some? ==> r.value < |fps| && !Writable(refuses, enroll, fps[r.value])
                        && forall k | 0 <= k < r.value :: Writable(refuses, enroll, fps[k])
  {
    if fps == [] then None
    else if !Writable(refuses, enroll, fps[0]) then Some(0)
    else
      var r := FirstRefused(refuses, enroll, fps[1..]);
      if r.Some? then Some(r.value + 1) else None
  }

  /** A write touches only the enroll number's own templates. The last write of a finger that
      the reader accepts decides that finger's template. */
  lemma {:induction false} WrittenSpec(templates: map<(string, int), Template>, refuses: set<Call>, enroll: string,
                                       fps: seq<FingerprintData>, key: (string, int))
    ensures var t := Written(templates, refuses, enroll, fps);
      (key.0 != enroll ==> (key in t <==> key in templates) && (key in t ==> t[key] == templates[key]))
      && (key.0 == enroll ==>
            (forall j | 0 <= j < |fps| :: fps[j].fingerIndex != key.1 || !Writable(refuses, enroll, fps[j]))
            ==> (key in t <==> key in templates) && (key in t ==> t[key] == templates[key]))
      && (forall j | 0 <= j < |fps| && fps[j].fingerIndex == key.1 && key.0 == enroll && Writable(refuses, enroll, fps[j])
                     && (forall k | j < k < |fps| :: fps[k].fingerIndex != key.1 || !Writable(refuses, enroll, fps[k])) ::
            key in t && t[key] == Template(fps[j].flag, fps[j].templateData))
  {
    if fps != [] {
      var p := fps[..|fps| - 1];
      WrittenSpec(templates, refuses, enroll, p, key);
      assert forall j | 0 <= j < |p| :: p[j] == fps[j];
    }
  }

  function SetFailedMessage(finger: int): string {
    "Nie udało się zapisać odcisku palca dla palca " + IntToString(finger)
  }

  /** The foreach of SetFingerprints: writes in list order and stops at the first write the
      reader refuses, whose position it reports. */
  method WriteUntilRefused(d: Device, enroll: string, fps: seq<FingerprintData>) returns (refused: Option<nat>)
    modifies d`templates, d`trace
    ensures refused == FirstRefused(d.refuses, enroll, fps)
    ensures var done := if refused.Some? then refused.value + 1 else |fps|;
      done <= |fps|
      && d.templates == Written(old(d.templates), d.refuses, enroll, fps[..done])
      && d.trace == old(d.trace) + Writes(d.refuses, enroll, fps[..done])
  {
    ghost var t0 := d.trace;
    ghost var m0 := d.templates;
    var i := 0;
    while i < |fps|
      invariant 0 <= i <= |fps|
      invariant forall k | 0 <= k < i :: Writable(d.refuses, enroll, fps[k])
      invariant d.templates == Written(m0, d.refuses, enroll, fps[..i])
      invariant d.trace == t0 + Writes(d.refuses, enroll, fps[..i])
    {
      var ok := WriteFingerprint(d, m0, t0, enroll, fps, i);
      if !ok {
        FirstRefusedAt(d.refuses, enroll, fps, i);
        return Some(i);
      }
      i := i + 1;
    }
    assert fps[..|fps|] == fps;
    refused := None;
  }

  /** SetFingerprints: the writes in list order, stopping at the first one the reader refuses;
      the writes before it stay. */
  method SetFingerprints(d: Device, ip: string, port: int, enroll: string, fps: seq<FingerprintData>)
    returns (r: Response<string>)
    modifies d`connected, d`enabled, d`trace, d`templates
    ensures Connect in d.refuses ==>
      r == BadRequest(ConnectFailedMessage) && d.trace == old(d.trace) + [Connected(false)] && d.templates == old(d.templates)
    ensures Connect !in d.refuses ==>
      var done := match FirstRefused(d.refuses, enroll, fps) case None => |fps| case Some(k) => k + 1;
      d.templates == Written(old(d.templates), d.refuses, enroll, fps[..done])
      && d.trace == old(d.trace) + Bracket(true, Writes(d.refuses, enroll, fps[..done]))
      && d.enabled && !d.connected
      && r == match FirstRefused(d.refuses, enroll, fps)
              case None => Ok(SavedMessage)
              case Some(k) => BadRequest(SetFailedMessage(fps[k].fingerIndex))
  {
    var connected := d.ConnectNet(ip, port);
    if !connected {
      return BadRequest(ConnectFailedMessage);
    }
    var _ := d.EnableDevice(false);
    var refused := WriteUntilRefused(d, enroll, fps);
    r := if refused.None? then Ok(SavedMessage) else BadRequest(SetFailedMessage(fps[refused.value].fingerIndex));
    var _ := d.EnableDevice(true);
    d.Disconnect();
    BracketTrace(old(d.trace), Writes(d.refuses, enroll, fps[..if refused.Some? then refused.value + 1 else |fps|]));
  }

  lemma {:induction false} FirstRefusedAt(refuses: set<Call>, enroll: string, fps: seq<FingerprintData>, i: nat)
    requires i < |fps| && !Writable(refuses, enroll, fps[i])
    requires forall k | 0 <= k < i :: Writable(refuses, enroll, fps[k])
    ensures FirstRefused(refuses, enroll, fps) == Some(i)
  {
    if i > 0 {
      FirstRefusedAt(refuses, enroll, fps[1..], i - 1);
    }
  }

  // ---------------------------------------------------------------------------------------
  // bulk-set

  function BulkFailedMessage(finger: int): string {
    "Nie udało się zapisać odcisku palca " + IntToString(finger)
  }

  /** One message per refused write, in list order. */
  function Failures(refuses: set<Call>, enroll: string, fps: seq<FingerprintData>): (r: seq<string>)
    ensures |r| <= |fps|
  {
    if fps == [] then []
    else
      var fp := fps[|fps| - 1];
      Failures(refuses, enroll, fps[..|fps| - 1]) + (if Writable(refuses, enroll, fp) then [] else [BulkFailedMessage(fp.fingerIndex)])
  }

  /** No failure message exactly when the reader accepts every write. */
  lemma {:induction false} FailuresEmpty(refuses: set<Call>, enroll: string, fps: seq<FingerprintData>)
    ensures Failures(refuses, enroll, fps) == [] <==> forall k | 0 <= k < |fps| :: Writable(refuses, enroll, fps[k])
  {
    if fps != [] {
      var p := fps[..|fps| - 1];
      FailuresEmpty(refuses, enroll, p);
      assert forall k | 0 <= k < |p| :: p[k] == fps[k];
      assert Failures(refuses, enroll, fps) == Failures(refuses, enroll, p)
        + (if Writable(refuses, enroll, fps[|p|]) then [] else [BulkFailedMessage(fps[|p|].fingerIndex)]);
    }
  }

  function UserResult(refuses: set<Call>, u: UserFingerprints): BulkOperationResult {
    var errors := Failures(refuses, u.enrollNumber, u.fingerprints);
    BulkOperationResult(u.enrollNumber, errors == [], errors)
  }

  /** What one more write adds to each fold over a prefix. */
  lemma WrittenSnoc(templates: map<(string, int), Template>, refuses: set<Call>, enroll: string,
                    fps: seq<FingerprintData>, i: nat)
    requires i < |fps|
    ensures var fp, t := fps[i], Written(templates, refuses, enroll, fps[..i]);
      Written(templates, refuses, enroll, fps[..i + 1])
        == if Writable(refuses, enroll, fp) then t[(enroll, fp.fingerIndex) := Template(fp.flag, fp.templateData)] else t
  {
    assert fps[..i + 1][..i] == fps[..i];
  }

  lemma WritesSnoc(t0: seq<Event>, refuses: set<Call>, enroll: string, fps: seq<FingerprintData>, i: nat)
    requires i < |fps|
    ensures t0 + Writes(refuses, enroll, fps[..i + 1])
         == t0 + Writes(refuses, enroll, fps[..i]) + [TemplateWritten(enroll, fps[i].fingerIndex, Writable(refuses, enroll, fps[i]))]
  {
    assert fps[..i + 1][..i] == fps[..i];
    var a, b := Writes(refuses, enroll, fps[..i]), [TemplateWritten(enroll, fps[i].fingerIndex, Writable(refuses, enroll, fps[i]))];
    assert (t0 + a) + b == t0 + (a + b);
  }

  lemma FailuresSnoc(refuses: set<Call>, enroll: string, fps: seq<FingerprintData>, i: nat)
    requires i < |fps|
    ensures Failures(refuses, enroll, fps[..i + 1])
         == Failures(refuses, enroll, fps[..i]) + (if Writable(refuses, enroll, fps[i]) then [] else [BulkFailedMessage(fps[i].fingerIndex)])
  {
    assert fps[..i + 1][..i] == fps[..i];
  }

  /** One SetUserTmpExStr call, as the folds describe it. */
  method WriteFingerprint(d: Device, ghost m0: map<(string, int), Template>, ghost t0: seq<Event>,
                          enroll: string, fps: seq<FingerprintData>, i: nat) returns (ok: bool)
    requires i < |fps|
    requires d.templates == Written(m0, d.refuses, enroll, fps[..i])
    requires d.trace == t0 + Writes(d.refuses, enroll, fps[..i])
    modifies d`templates, d`trace
    ensures ok == Writable(d.refuses, enroll, fps[i])
    ensures d.templates == Written(m0, d.refuses, enroll, fps[..i + 1])
    ensures d.trace == t0 + Writes(d.refuses, enroll, fps[..i + 1])
  {
    var fp := fps[i];
    ok := d.SetUserTemplate(enroll, fp.fingerIndex, fp.flag, fp.templateData);
    WrittenSnoc(m0, d.refuses, enroll, fps, i);
    WritesSnoc(t0, d.refuses, enroll, fps, i);
  }

  /** The inner foreach: every fingerprint of one user is written, failures are collected. */
  method WriteUser(d: Device, u: UserFingerprints) returns (result: BulkOperationResult)
    modifies d`templates, d`trace
    ensures result == UserResult(d.refuses, u)
    ensures d.templates == Written(old(d.templates), d.refuses, u.enrollNumber, u.fingerprints)
    ensures d.trace == old(d.trace) + Writes(d.refuses, u.enrollNumber, u.fingerprints)
  {
    var errors: seq<string> := [];
    var success := true;
    var fps := u.fingerprints;
    ghost var t0 := d.trace;
    ghost var m0 := d.templates;
    var i := 0;
    while i < |fps|
      invariant 0 <= i <= |fps|
      invariant errors == Failures(d.refuses, u.enrollNumber, fps[..i]) && success == (errors == [])
      invariant d.templates == Written(m0, d.refuses, u.enrollNumber, fps[..i])
      invariant d.trace == t0 + Writes(d.refuses, u.enrollNumber, fps[..i])
    {
      FailuresSnoc(d.refuses, u.enrollNumber, fps, i);
      var ok := WriteFingerprint(d, m0, t0, u.enrollNumber, fps, i);
      if !ok {
        success := false;
        errors := errors + [BulkFailedMessage(fps[i].fingerIndex)];
      }
      i := i + 1;
    }
    assert fps[..|fps|] == fps;
    result := BulkOperationResult(u.enrollNumber, success, errors);
  }

  function BulkResults(refuses: set<Call>, users: seq<UserFingerprints>): (r: seq<BulkOperationResult>)
    ensures |r| == |users|
  {
    if users == [] then [] else BulkResults(refuses, users[..|users| - 1]) + [UserResult(refuses, users[|users| - 1])]
  }

  function BulkWritten(templates: map<(string, int), Template>, refuses: set<Call>, users: seq<UserFingerprints>)
    : map<(string, int), Template>
  {
    if users == [] then templates
    else
      var u := users[|users| - 1];
      Written(BulkWritten(templates, refuses, users[..|users| - 1]), refuses, u.enrollNumber, u.fingerprints)
  }

  function BulkWrites(refuses: set<Call>, users: seq<UserFingerprints>): seq<Event> {
    if users == [] then []
    else
      var u := users[|users| - 1];
      BulkWrites(refuses, users[..|users| - 1]) + Writes(refuses, u.enrollNumber, u.fingerprints)
  }

  /** Each user's result is a success exactly when every one of that user's writes was
      accepted; failing writes of one user do not stop the others. */
  lemma {:induction false} BulkResultMeaning(refuses: set<Call>, users: seq<UserFingerprints>, i: int)
    requires 0 <= i < |users|
    ensures var r := BulkResults(refuses, users)[i];
      r.enrollNumber == users[i].enrollNumber
      && (r.success <==> forall k | 0 <= k < |users[i].fingerprints| :: Writable(refuses, users[i].enrollNumber, users[i].fingerprints[k]))
  {
    var p := users[..|users| - 1];
    if i < |users| - 1 {
      BulkResultMeaning(refuses, p, i);
      assert p[i] == users[i];
    } else {
      FailuresEmpty(refuses, users[i].enrollNumber, users[i].fingerprints);
    }
  }

  /** What one more user adds to each of the three folds. */
  lemma BulkResultsSnoc(refuses: set<Call>, users: seq<UserFingerprints>, i: nat)
    requires i < |users|
    ensures BulkResults(refuses, users[..i + 1]) == BulkResults(refuses, users[..i]) + [UserResult(refuses, users[i])]
  {
    assert users[..i + 1][..i] == users[..i];
  }

  lemma BulkWrittenSnoc(templates: map<(string, int), Template>, refuses: set<Call>, users: seq<UserFingerprints>, i: nat)
    requires i < |users|
    ensures BulkWritten(templates, refuses, users[..i + 1])
         == Written(BulkWritten(templates, refuses, users[..i]), refuses, users[i].enrollNumber, users[i].fingerprints)
  {
    assert users[..i + 1][..i] == users[..i];
  }

  lemma BulkWritesSnoc(t0: seq<Event>, refuses: set<Call>, users: seq<UserFingerprints>, i: nat)
    requires i < |users|
    ensures t0 + BulkWrites(refuses, users[..i + 1])
         == t0 + BulkWrites(refuses, users[..i]) + Writes(refuses, users[i].enrollNumber, users[i].fingerprints)
  {
    assert users[..i + 1][..i] == users[..i];
    var a, b := BulkWrites(refuses, users[..i]), Writes(refuses, users[i].enrollNumber, users[i].fingerprints);
    assert (t0 + a) + b == t0 + (a + b);
  }

  /** One iteration of the outer foreach. */
  method WriteNextUser(d: Device, ghost m0: map<(string, int), Template>, ghost t0: seq<Event>,
                       users: seq<UserFingerprints>, i: nat, results: seq<BulkOperationResult>)
    returns (results': seq<BulkOperationResult>)
    requires i < |users|
    requires results == BulkResults(d.refuses, users[..i])
    requires d.templates == BulkWritten(m0, d.refuses, users[..i])
    requires d.trace == t0 + BulkWrites(d.refuses, users[..i])
    modifies d`templates, d`trace
    ensures results' == BulkResults(d.refuses, users[..i + 1])
    ensures d.templates == BulkWritten(m0, d.refuses, users[..i + 1])
    ensures d.trace == t0 + BulkWrites(d.refuses, users[..i + 1])
  {
    var result := WriteUser(d, users[i]);
    results' := results + [result];
    BulkResultsSnoc(d.refuses, users, i);
    BulkWrittenSnoc(m0, d.refuses, users, i);
    BulkWritesSnoc(t0, d.refuses, users, i);
  }

  /** The outer foreach of SetBulkFingerprints. */
  method WriteUsers(d: Device, users: seq<UserFingerprints>) returns (results: seq<BulkOperationResult>)
    modifies d`templates, d`trace
    ensures results == BulkResults(d.refuses, users)
    ensures d.templates == BulkWritten(old(d.templates), d.refuses, users)
    ensures d.trace == old(d.trace) + BulkWrites(d.refuses, users)
  {
    results := [];
    ghost var t0 := d.trace;
    ghost var m0 := d.templates;
    var i := 0;
    while i < |users|
      invariant 0 <= i <= |users|
      invariant results == BulkResults(d.refuses, users[..i])
      invariant d.templates == BulkWritten(m0, d.refuses, users[..i])
      invariant d.trace == t0 + BulkWrites(d.refuses, users[..i])
    {
      results := WriteNextUser(d, m0, t0, users, i, results);
      i := i + 1;
    }
    assert users[..|users|] == users;
  }

  /** SetBulkFingerprints: one result per user, in request order. */
  method SetBulkFingerprints(d: Device, ip: string, port: int, users: seq<UserFingerprints>)
    returns (r: Response<seq<BulkOperationResult>>)
    modifies d`connected, d`enabled, d`trace, d`templates
    ensures Connect in d.refuses ==>
      r == BadRequest(ConnectFailedMessage) && d.trace == old(d.trace) + [Connected(false)] && d.templates == old(d.templates)
    ensures Connect !in d.refuses ==>
      r == Ok(BulkResults(d.refuses, users))
      && d.templates == BulkWritten(old(d.templates), d.refuses, users)
      && d.trace == old(d.trace) + Bracket(true, BulkWrites(d.refuses, users))
      && d.enabled && !d.connected
  {
    var connected := d.ConnectNet(ip, port);
    if !connected {
      return BadRequest(ConnectFailedMessage);
    }
    var _ := d.EnableDevice(false);
    var results := WriteUsers(d, users);
    r := Ok(results);
    var _ := d.EnableDevice(true);
    d.Disconnect();
    BracketTrace(old(d.trace), BulkWrites(d.refuses, users));
  }
}
