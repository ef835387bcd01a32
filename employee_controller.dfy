/** EmployeeController. Every action hands a lambda to the connection manager; the lambda
    connects, disables the reader, does its work inside try, and re-enables and disconnects in
    finally. Here each lambda is a method on the reader (one run of it, as the manager's retry
    loop invokes it), and each action's catch clauses are a function from the outcome the
    manager reports to the HTTP response. */
module EmployeeController {
  import opened Common
  import opened Text
  import opened Sorting
  import opened Reader
  import opened Settings
  import opened ConnectionManager

  const ReadUsersFailedMessage: string := "Nie udało się odczytać listy pracowników"
  const NotFoundMessage: string := "Nie znaleziono pracownika o podanym numerze ewidencyjnym"
  const SaveFailedMessage: string := "Nie udało się zapisać danych pracownika"
  const UpdatedMessage: string := "Dane pracownika zostały zaktualizowane pomyślnie"
  const AddedMessage: string := "Pracownik został dodany pomyślnie"
  const OldNotFoundMessage: string := "Nie znaleziono pracownika o podanym starym numerze ewidencyjnym"
  const NewTakenMessage: string := "Nowy numer ewidencyjny jest już zajęty"
  const RecreateFailedMessage: string := "Nie udało się utworzyć pracownika z nowym numerem ewidencyjnym"
  const ChangedMessage: string := "Numer ewidencyjny pracownika został zmieniony pomyślnie"
  const EmptyBatchMessage: string := "Lista pracowników jest pusta"
  const DeleteFailedMessage: string := "Nie udało się usunąć pracownika"
  const DeletedMessage: string := "Pracownik został usunięty pomyślnie"
  const ClearFailedMessage: string := "Nie udało się usunąć danych pracowników"
  const ClearedMessage: string := "Wszyscy pracownicy zostali usunięci pomyślnie"

  /** The fields of an EmployeeRequest or BatchEmployee that reach the reader. */
  datatype Employee = Employee(enrollNumber: string, name: string, password: Option<string>,
                               cardNumber: Option<string>, privilege: int, enabled: bool)

  /** One entry of the save-batch result list. */
  datatype BatchEntry = BatchEntry(enrollNumber: string, success: bool, message: string, action: string)

  /** A record as a listing loop reports it: the card number comes from GetStrCardNumber,
      which reports "" when it fails. */
  function AsListed(refuses: set<Call>, u: UserInfo): UserInfo {
    u.(cardNumber := if ReadCard in refuses then [] else u.cardNumber)
  }

  function Listed(refuses: set<Call>, users: seq<UserInfo>): (r: seq<UserInfo>)
    ensures |r| == |users|
    ensures forall i | 0 <= i < |users| :: r[i] == AsListed(refuses, users[i])
  {
    if users == [] then [] else [AsListed(refuses, users[0])] + Listed(refuses, users[1..])
  }

  lemma ListedCons(refuses: set<Call>, users: seq<UserInfo>)
    requires users != []
    ensures Listed(refuses, users) == [AsListed(refuses, users[0])] + Listed(refuses, users[1..])
  {
  }

  /** Whether SSR_GetUserInfo reports the record. */
  predicate Exists(refuses: set<Call>, users: seq<UserInfo>, enroll: string) {
    LookupUser(enroll) !in refuses && Find(users, enroll).Some?
  }

  // ---------------------------------------------------------------------------------------
  // get-info

  /** The try block of GetEmployeeInfo's lambda. */
  method GetInfoBody(d: Device, enroll: string) returns (r: Outcome<UserInfo>)
    modifies d`cardBuffer
    ensures enroll in d.raises ==> r == Throws(DeviceFault(LookupFaultMessage))
    ensures enroll !in d.raises && !Exists(d.refuses, d.users, enroll) ==> r == Throws(KeyNotFound(NotFoundMessage))
    ensures enroll !in d.raises && Exists(d.refuses, d.users, enroll) ==>
      r == Returns(AsListed(d.refuses, Find(d.users, enroll).value))
  {
    var found := d.GetUserInfo(enroll);
    if found.Throws? {
      return Throws(found.error);
    }
    if found.value.None? {
      return Throws(KeyNotFound(NotFoundMessage));
    }
    var ok, card := d.GetStrCardNumber();
    var u := found.value.value;
    r := Returns(UserInfo(enroll, u.name, card, u.password, u.privilege, u.enabled));
  }

  /** One run of GetEmployeeInfo's lambda: the stored record with its card number, or
      KeyNotFoundException when the reader does not report it. The user table is not touched. */
  method GetEmployeeInfoAttempt(d: Device, ip: string, port: int, enroll: string) returns (r: Outcome<UserInfo>)
    modifies d`connected, d`enabled, d`trace, d`cardBuffer
    ensures d.trace == old(d.trace) + Bracket(Connect !in d.refuses, [])
    ensures Connect !in d.refuses ==> d.enabled && !d.connected
    ensures Connect in d.refuses ==> r == Throws(InvalidOperation(ConnectFailedMessage))
    ensures Connect !in d.refuses && enroll in d.raises ==> r == Throws(DeviceFault(LookupFaultMessage))
    ensures Connect !in d.refuses && enroll !in d.raises ==>
      (r == Throws(KeyNotFound(NotFoundMessage)) <==> !Exists(d.refuses, d.users, enroll))
      && (Exists(d.refuses, d.users, enroll) ==> r == Returns(AsListed(d.refuses, Find(d.users, enroll).value)))
  {
    var connected := d.ConnectNet(ip, port);
    if !connected {
      return Throws(InvalidOperation(ConnectFailedMessage));
    }
    var _ := d.EnableDevice(false);
    r := GetInfoBody(d, enroll);
    var _ := d.EnableDevice(true);
    d.Disconnect();
    BracketTraceEmpty(old(d.trace));
  }

  /** GetEmployeeInfo's catch clauses: KeyNotFoundException is 404 with its message, every
      other exception 500. */
  function EmployeeInfoResponse(o: Outcome<UserInfo>): (r: Response<UserInfo>)
    ensures r.Ok? <==> o.Returns?
    ensures r.NotFound? <==> o.Throws? && o.error.KeyNotFound?
    ensures r.ServerError? ==> r.message == "Błąd podczas pobierania danych pracownika: " + o.error.Message()
  {
    match o
    case Returns(u) => Ok(u)
    case Throws(KeyNotFound(m)) => NotFound(m)
    case Throws(e) => ServerError("Błąd podczas pobierania danych pracownika: " + e.Message())
  }

  /** A missing employee fails every run with KeyNotFoundException. The manager retries it
      RetryAttempts times and passes it on, so the response is 404. */
  lemma MissingEmployeeIsNotFound(key: string, s: DeviceSettings, env: Env<UserInfo>)
    requires env.factoryError.None? && s.retryAttempts >= 1 && s.RetryDelayMilliseconds() >= 0
    requires forall i: nat | i < s.retryAttempts ::
      env.attempts(i) == Attempt(false, Throws(KeyNotFound(NotFoundMessage)), false)
    ensures Held(key, s, env) == Finished(Throws(KeyNotFound(NotFoundMessage)))
    ensures EmployeeInfoResponse(Held(key, s, env).outcome) == NotFound(NotFoundMessage)
  {
    HeldRetriesKeyNotFound(key, s, env, NotFoundMessage);
  }

  // ---------------------------------------------------------------------------------------
  // get-all

  /** The OrderBy key: the enroll number's value when int.TryParse accepts it, int.MaxValue otherwise. */
  function EnrollSortKey(u: UserInfo): (k: int)
    ensures IsInt32(k)
    ensures TryParseInt32(u.enrollNumber).None? ==> k == Int32Max
  {
    TryParseInt32(u.enrollNumber).GetOr(Int32Max)
  }

  /** The try block of GetAllEmployees' lambda. */
  method GetAllBody(d: Device) returns (r: Outcome<seq<UserInfo>>)
    modifies d`userBuffer, d`cardBuffer
    ensures ReadAllUsers in d.refuses ==> r == Throws(InvalidOperation(ReadUsersFailedMessage))
    ensures ReadAllUsers !in d.refuses ==> r == Returns(SortBy(Listed(d.refuses, d.users), EnrollSortKey))
  {
    var ok := d.ReadAllUserId();
    if !ok {
      return Throws(InvalidOperation(ReadUsersFailedMessage));
    }
    var employees: seq<UserInfo> := [];
    ghost var all := Listed(d.refuses, d.users);
    while true
      invariant all == employees + Listed(d.refuses, d.userBuffer)
      decreases |d.userBuffer|
    {
      ghost var before := d.userBuffer;
      var next := d.GetAllUserInfo();
      if next.None? {
        break;
      }
      var cardOk, card := d.GetStrCardNumber();
      var u := next.value;
      var listed := UserInfo(u.enrollNumber, u.name, card, u.password, u.privilege, u.enabled);
      ListedCons(d.refuses, before);
      assert listed == AsListed(d.refuses, before[0]);
      AppendOne(employees, listed, Listed(d.refuses, d.userBuffer));
      employees := employees + [listed];
    }
    assert d.userBuffer == [];
    assert employees == all;
    r := Returns(SortBy(employees, EnrollSortKey));
  }

  /** The work GetAllEmployees' lambda does once connected: disable, list, re-enable, disconnect. */
  method GetAllConnected(d: Device) returns (r: Outcome<seq<UserInfo>>)
    requires d.connected
    modifies d`connected, d`enabled, d`trace, d`userBuffer, d`cardBuffer
    ensures d.trace == old(d.trace) + [Enabled(false)] + [Enabled(true)] + [Disconnected]
    ensures d.enabled && !d.connected
    ensures ReadAllUsers in d.refuses ==> r == Throws(InvalidOperation(ReadUsersFailedMessage))
    ensures ReadAllUsers !in d.refuses ==> r == Returns(SortBy(Listed(d.refuses, d.users), EnrollSortKey))
  {
    ghost var listed := Listed(d.refuses, d.users);
    var _ := d.EnableDevice(false);
    assert Listed(d.refuses, d.users) == listed;
    r := GetAllBody(d);
    var _ := d.EnableDevice(true);
    d.Disconnect();
    assert Listed(d.refuses, d.users) == listed;
  }

  /** One run of GetAllEmployees' lambda: every stored record, with the card number the reader
      reports, ordered by EnrollSortKey. */
  method GetAllEmployeesAttempt(d: Device, ip: string, port: int) returns (r: Outcome<seq<UserInfo>>)
    modifies d`connected, d`enabled, d`trace, d`userBuffer, d`cardBuffer
    ensures d.trace == old(d.trace) + Bracket(Connect !in d.refuses, [])
    ensures Connect !in d.refuses ==> d.enabled && !d.connected
    ensures Connect in d.refuses ==> r == Throws(InvalidOperation(ConnectFailedMessage))
    ensures Connect !in d.refuses && ReadAllUsers in d.refuses ==> r == Throws(InvalidOperation(ReadUsersFailedMessage))
    ensures Connect !in d.refuses && ReadAllUsers !in d.refuses ==>
      r == Returns(SortBy(Listed(d.refuses, d.users), EnrollSortKey))
  {
    var connected := d.ConnectNet(ip, port);
    if !connected {
      return Throws(InvalidOperation(ConnectFailedMessage));
    }
    r := GetAllConnected(d);
    BracketTraceEmpty(old(d.trace));
  }

  /** The listing holds every record once, ascending by numeric enroll number; records whose
      number does not parse sort last, and records with equal keys keep the reader's order. */
  lemma GetAllEmployeesOrder(refuses: set<Call>, users: seq<UserInfo>, u: UserInfo, k: int)
    ensures var r := SortBy(Listed(refuses, users), EnrollSortKey);
      multiset(r) == multiset(Listed(refuses, users))
      && SortedBy(r, EnrollSortKey)
      && Matching(r, EnrollSortKey, k) == Matching(Listed(refuses, users), EnrollSortKey, k)
      && (TryParseInt32(u.enrollNumber).None? ==> forall x :: EnrollSortKey(x) <= EnrollSortKey(u))
  {
    SortByIsSortedPermutation(Listed(refuses, users), EnrollSortKey);
    SortByIsStable(Listed(refuses, users), EnrollSortKey, k);
  }

  function GetAllEmployeesResponse(o: Outcome<seq<UserInfo>>): (r: Response<seq<UserInfo>>)
    ensures r.Ok? <==> o.Returns?
    ensures r.ServerError? ==> r.message == "Błąd podczas pobierania danych pracowników: " + o.error.Message()
  {
    match o
    case Returns(us) => Ok(us)
    case Throws(e) => ServerError("Błąd podczas pobierania danych pracowników: " + e.Message())
  }

  // ---------------------------------------------------------------------------------------
  // save

  /** SaveEmployee checks for a duplicate card only when the card number is given and longer
      than one character. */
  predicate TakesCardCheckPath(card: Option<string>) {
    card.Some? && |card.value| > 1
  }

  /** The duplicate-card test applied to a listed record. */
  predicate Conflicts(u: UserInfo, card: string, enroll: string) {
    u.cardNumber != [] && EqualsIgnoreCase(u.cardNumber, card) && u.enrollNumber != enroll
  }

  /** The first listed record that holds the card under another enroll number. */
  function FirstConflict(listed: seq<UserInfo>, card: string, enroll: string): (r: Option<UserInfo>)
    ensures r.None? <==> forall i | 0 <= i < |listed| :: !Conflicts(listed[i], card, enroll)
    ensures r.Some? ==> exists i | 0 <= i < |listed| ::
      (listed[i] == r.value && Conflicts(r.value, card, enroll) && forall j | 0 <= j < i :: !Conflicts(listed[j], card, enroll))
  {
    if listed == [] then None
    else if Conflicts(listed[0], card, enroll) then Some(listed[0])
    else
      var r := FirstConflict(listed[1..], card, enroll);
      if r.Some? then
        var i :| 0 <= i < |listed[1..]| && listed[1..][i] == r.value && Conflicts(r.value, card, enroll)
                 && forall j | 0 <= j < i :: !Conflicts(listed[1..][j], card, enroll);
        assert listed[i + 1] == r.value;
        r
      else r
  }

  function ConflictMessage(card: string, holder: UserInfo): string {
    "Karta " + card + " jest już przypisana do pracownika " + holder.enrollNumber + " (" + holder.name + ")"
  }

  /** The card-uniqueness scan: the listing loop stops with an exception at the first
      conflicting record. */
  method ScanForConflict(d: Device, card: string, enroll: string) returns (conflict: Option<UserInfo>)
    modifies d`userBuffer, d`cardBuffer
    ensures conflict == FirstConflict(Listed(d.refuses, old(d.userBuffer)), card, enroll)
  {
    ghost var answer := FirstConflict(Listed(d.refuses, d.userBuffer), card, enroll);
    while true
      invariant answer == FirstConflict(Listed(d.refuses, d.userBuffer), card, enroll)
      decreases |d.userBuffer|
    {
      ghost var before := d.userBuffer;
      var next := d.GetAllUserInfo();
      if next.None? {
        return None;
      }
      var cardOk, existing := d.GetStrCardNumber();
      var u := next.value.(cardNumber := existing);
      ListedCons(d.refuses, before);
      assert u == AsListed(d.refuses, before[0]);
      ghost var rest := Listed(d.refuses, d.userBuffer);
      assert ([u] + rest)[0] == u && ([u] + rest)[1..] == rest;
      if existing != [] && EqualsIgnoreCase(existing, card) && u.enrollNumber != enroll {
        return Some(u);
      }
    }
  }

  /** What SaveEmployee's card-checking lambda leaves behind, from the table `before` it ran
      on: the outcome `r` and the table `after`. A refused listing or a conflicting card
      throws and stores nothing; otherwise the record is saved with the requested card, and
      the message says whether it replaced an existing one. */
  predicate SavedWithCardCheck(refuses: set<Call>, raises: set<string>, before: seq<UserInfo>, e: Employee,
                               r: Outcome<string>, after: seq<UserInfo>)
  {
    var card := e.cardNumber.GetOr([]);
    if ReadAllUsers in refuses then r == Throws(InvalidOperation(ReadUsersFailedMessage)) && after == before
    else
      match FirstConflict(Listed(refuses, before), card, e.enrollNumber)
      case Some(holder) => r == Throws(InvalidOperation(ConflictMessage(card, holder))) && after == before
      case None =>
        if e.enrollNumber in raises then r == Throws(DeviceFault(LookupFaultMessage)) && after == before
        else
          var saved := WriteCard(card) !in refuses && SaveUser(e.enrollNumber) !in refuses;
          (saved ==> after == Upsert(before, UserInfo(e.enrollNumber, e.name, card, e.password.GetOr([]), e.privilege, e.enabled)))
          && (!saved ==> after == before)
          && r == if !saved then Throws(InvalidOperation(SaveFailedMessage))
                  else if Exists(refuses, before, e.enrollNumber) then Returns(UpdatedMessage)
                  else Returns(AddedMessage)
  }

  /** The same for SaveEmployeeWithoutCardCheck's lambda, where `buffer` is the SDK's card
      buffer before the run. */
  predicate SavedWithoutCardCheck(refuses: set<Call>, raises: set<string>, before: seq<UserInfo>, buffer: string,
                                  e: Employee, r: Outcome<string>, after: seq<UserInfo>)
  {
    if e.enrollNumber in raises then r == Throws(DeviceFault(LookupFaultMessage)) && after == before
    else
      var card := e.cardNumber.GetOr([]);
      var exists_ := Exists(refuses, before, e.enrollNumber);
      var buffered := if exists_ then Find(before, e.enrollNumber).value.cardNumber else buffer;
      var saved := (card == [] || WriteCard(card) !in refuses) && SaveUser(e.enrollNumber) !in refuses;
      (saved ==> after == Upsert(before, UserInfo(e.enrollNumber, e.name, if card != [] then card else buffered,
                                                  e.password.GetOr([]), e.privilege, e.enabled)))
      && (!saved ==> after == before)
      && r == if !saved then Throws(InvalidOperation(SaveFailedMessage))
              else if exists_ then Returns(UpdatedMessage) else Returns(AddedMessage)
  }

  /** The try block of SaveEmployee's card-checking lambda. */
  method SaveWithCardCheckBody(d: Device, e: Employee) returns (r: Outcome<string>)
    requires d.Valid() && TakesCardCheckPath(e.cardNumber)
    modifies d`userBuffer, d`cardBuffer, d`users
    ensures d.Valid()
    ensures SavedWithCardCheck(d.refuses, d.raises, old(d.users), e, r, d.users)
  {
    var card := e.cardNumber.value;
    var ok := d.ReadAllUserId();
    if !ok {
      return Throws(InvalidOperation(ReadUsersFailedMessage));
    }
    var conflict := ScanForConflict(d, card, e.enrollNumber);
    if conflict.Some? {
      return Throws(InvalidOperation(ConflictMessage(card, conflict.value)));
    }
    var found := d.GetUserInfo(e.enrollNumber);
    if found.Throws? {
      return Throws(found.error);
    }
    var saved := d.SetUserInfo(e.enrollNumber, e.name, e.password.GetOr([]), e.privilege, e.enabled, card);
    if !saved {
      return Throws(InvalidOperation(SaveFailedMessage));
    }
    r := Returns(if found.value.Some? then UpdatedMessage else AddedMessage);
  }

  /** The try block of SaveEmployeeWithoutCardCheck's lambda. With no card number the SDK
      stores the card number left in its buffer, which the preceding SSR_GetUserInfo sets to
      the existing record's card: an existing card survives the save. */
  method SaveWithoutCardCheckBody(d: Device, e: Employee) returns (r: Outcome<string>)
    requires d.Valid()
    modifies d`cardBuffer, d`users
    ensures d.Valid()
    ensures SavedWithoutCardCheck(d.refuses, d.raises, old(d.users), old(d.cardBuffer), e, r, d.users)
  {
    var found := d.GetUserInfo(e.enrollNumber);
    if found.Throws? {
      return Throws(found.error);
    }
    var saved := d.SetUserInfo(e.enrollNumber, e.name, e.password.GetOr([]), e.privilege, e.enabled, e.cardNumber.GetOr([]));
    if !saved {
      return Throws(InvalidOperation(SaveFailedMessage));
    }
    r := Returns(if found.value.Some? then UpdatedMessage else AddedMessage);
  }

  /** Upserting a record finds it under its enroll number and leaves every other lookup as
      it was. */
  lemma UpsertKeepsOthers(users: seq<UserInfo>, u: UserInfo)
    ensures Find(Upsert(users, u), u.enrollNumber) == Some(u)
    ensures forall other | other != u.enrollNumber :: Find(Upsert(users, u), other) == Find(users, other)
  {
    UpsertFind(users, u, u.enrollNumber);
    forall other | other != u.enrollNumber ensures Find(Upsert(users, u), other) == Find(users, other) {
      UpsertFind(users, u, other);
    }
  }

  /** Whichever path runs, a save that returns has stored a record under the requested enroll
      number and left every other record where it was; on the checking path the stored record
      carries exactly the requested fields. */
  lemma SaveChangesOnlyItsRecord(refuses: set<Call>, raises: set<string>, before: seq<UserInfo>, buffer: string,
                                 e: Employee, r: Outcome<string>, after: seq<UserInfo>)
    requires TakesCardCheckPath(e.cardNumber) ==> SavedWithCardCheck(refuses, raises, before, e, r, after)
    requires !TakesCardCheckPath(e.cardNumber) ==> SavedWithoutCardCheck(refuses, raises, before, buffer, e, r, after)
    requires r.Returns?
    ensures TakesCardCheckPath(e.cardNumber) ==>
      Find(after, e.enrollNumber) == Some(UserInfo(e.enrollNumber, e.name, e.cardNumber.value, e.password.GetOr([]), e.privilege, e.enabled))
    ensures Find(after, e.enrollNumber).Some?
    ensures forall other | other != e.enrollNumber :: Find(after, other) == Find(before, other)
  {
    var card := e.cardNumber.GetOr([]);
    if TakesCardCheckPath(e.cardNumber) {
      UpsertKeepsOthers(before, UserInfo(e.enrollNumber, e.name, card, e.password.GetOr([]), e.privilege, e.enabled));
    } else {
      var buffered := if Exists(refuses, before, e.enrollNumber) then Find(before, e.enrollNumber).value.cardNumber else buffer;
      UpsertKeepsOthers(before, UserInfo(e.enrollNumber, e.name, if card != [] then card else buffered,
                                         e.password.GetOr([]), e.privilege, e.enabled));
    }
  }

  /** What SaveEmployee's lambda does once connected: disable, take the path the card number
      selects, then re-enable and disconnect. */
  method SaveConnected(d: Device, e: Employee) returns (r: Outcome<string>)
    requires d.Valid() && d.connected
    modifies d`connected, d`enabled, d`trace, d`userBuffer, d`cardBuffer, d`users
    ensures d.Valid()
    ensures d.trace == old(d.trace) + [Enabled(false)] + [Enabled(true)] + [Disconnected]
    ensures d.enabled && !d.connected
    ensures TakesCardCheckPath(e.cardNumber) ==> SavedWithCardCheck(d.refuses, d.raises, old(d.users), e, r, d.users)
    ensures !TakesCardCheckPath(e.cardNumber) ==>
      SavedWithoutCardCheck(d.refuses, d.raises, old(d.users), old(d.cardBuffer), e, r, d.users)
  {
    var _ := d.EnableDevice(false);
    if TakesCardCheckPath(e.cardNumber) {
      r := SaveWithCardCheckBody(d, e);
    } else {
      r := SaveWithoutCardCheckBody(d, e);
    }
    var _ := d.EnableDevice(true);
    d.Disconnect();
  }

  /** One run of SaveEmployee's lambda, on the path the card number selects: a card number
      longer than one character is checked against every listed card first, any other is
      saved without the check. A successful save changes only the saved record. */
  method SaveEmployeeAttempt(d: Device, ip: string, port: int, e: Employee) returns (r: Outcome<string>)
    requires d.Valid()
    modifies d`connected, d`enabled, d`trace, d`userBuffer, d`cardBuffer, d`users
    ensures d.Valid()
    ensures d.trace == old(d.trace) + Bracket(Connect !in d.refuses, [])
    ensures Connect !in d.refuses ==> d.enabled && !d.connected
    ensures Connect in d.refuses ==> r == Throws(InvalidOperation(ConnectFailedMessage)) && d.users == old(d.users)
    ensures Connect !in d.refuses && TakesCardCheckPath(e.cardNumber) ==>
      SavedWithCardCheck(d.refuses, d.raises, old(d.users), e, r, d.users)
    ensures Connect !in d.refuses && !TakesCardCheckPath(e.cardNumber) ==>
      SavedWithoutCardCheck(d.refuses, d.raises, old(d.users), old(d.cardBuffer), e, r, d.users)
    ensures r.Returns? ==>
      Find(d.users, e.enrollNumber).Some?
      && forall other | other != e.enrollNumber :: Find(d.users, other) == Find(old(d.users), other)
    ensures Connect !in d.refuses && TakesCardCheckPath(e.cardNumber) && ReadAllUsers !in d.refuses
            && FirstConflict(Listed(d.refuses, old(d.users)), e.cardNumber.value, e.enrollNumber).Some? ==>
      r.Throws? && r.error.InvalidOperation? && d.users == old(d.users)
    ensures Connect !in d.refuses && TakesCardCheckPath(e.cardNumber) && e.enrollNumber !in d.raises
            && ReadAllUsers !in d.refuses && WriteCard(e.cardNumber.value) !in d.refuses
            && SaveUser(e.enrollNumber) !in d.refuses
            && FirstConflict(Listed(d.refuses, old(d.users)), e.cardNumber.value, e.enrollNumber).None? ==>
      r.Returns? && Find(d.users, e.enrollNumber)
        == Some(UserInfo(e.enrollNumber, e.name, e.cardNumber.value, e.password.GetOr([]), e.privilege, e.enabled))
  {
    var connected := d.ConnectNet(ip, port);
    if !connected {
      return Throws(InvalidOperation(ConnectFailedMessage));
    }
    ghost var before, buffer := d.users, d.cardBuffer;
    r := SaveConnected(d, e);
    if r.Returns? {
      SaveChangesOnlyItsRecord(d.refuses, d.raises, before, buffer, e, r, d.users);
    }
    BracketTraceEmpty(old(d.trace));
  }

  function SaveEmployeeResponse(o: Outcome<string>): (r: Response<string>)
    ensures r.Ok? <==> o.Returns?
    ensures r.ServerError? ==> r.message == "Błąd podczas zapisywania danych pracownika: " + o.error.Message()
    ensures !r.NotFound? && !r.BadRequest?
  {
    match o
    case Returns(m) => Ok(m)
    case Throws(e) => ServerError("Błąd podczas zapisywania danych pracownika: " + e.Message())
  }

  // ---------------------------------------------------------------------------------------
  // change-enroll

  /** What ChangeEnrollNumber's lambda leaves behind, from the table `before`: the outcome
      `r` and the table `after`. Either lookup may throw; a missing old number or a taken new
      number throws and changes nothing. Otherwise the old record is deleted (a refused delete
      is not noticed, and the record stays) and recreated under the new number with its card;
      a refused recreate throws after the delete. */
  predicate EnrollChanged(refuses: set<Call>, raises: set<string>, before: seq<UserInfo>, oldEnroll: string,
                          newEnroll: string, r: Outcome<()>, after: seq<UserInfo>)
  {
    if oldEnroll in raises then r == Throws(DeviceFault(LookupFaultMessage)) && after == before
    else if !Exists(refuses, before, oldEnroll) then r == Throws(KeyNotFound(OldNotFoundMessage)) && after == before
    else if newEnroll in raises then r == Throws(DeviceFault(LookupFaultMessage)) && after == before
    else if Exists(refuses, before, newEnroll) then r == Throws(InvalidOperation(NewTakenMessage)) && after == before
    else
      var u := Find(before, oldEnroll).value;
      var card := AsListed(refuses, u).cardNumber;
      var afterDelete := if DeleteUser(oldEnroll) !in refuses then Remove(before, oldEnroll) else before;
      var saved := (card == [] || WriteCard(card) !in refuses) && SaveUser(newEnroll) !in refuses;
      (saved ==> r == Returns(()) && after == Upsert(afterDelete, u.(enrollNumber := newEnroll)))
      && (!saved ==> r == Throws(InvalidOperation(RecreateFailedMessage)) && after == afterDelete)
  }

  /** Once both lookups pass, the change touches only the two numbers: with the delete
      accepted the old number is gone, with it refused the old record stays beside the new
      one, and a successful run finds the record under the new number. */
  lemma EnrollChangedFinds(refuses: set<Call>, raises: set<string>, before: seq<UserInfo>, oldEnroll: string,
                           newEnroll: string, r: Outcome<()>, after: seq<UserInfo>)
    requires EnrollChanged(refuses, raises, before, oldEnroll, newEnroll, r, after)
    requires oldEnroll !in raises && newEnroll !in raises
    requires Exists(refuses, before, oldEnroll) && !Exists(refuses, before, newEnroll)
    ensures var u := Find(before, oldEnroll).value;
      var saved := (AsListed(refuses, u).cardNumber == [] || WriteCard(AsListed(refuses, u).cardNumber) !in refuses)
                   && SaveUser(newEnroll) !in refuses;
      (r.Returns? <==> saved)
      && (!r.Returns? ==> r == Throws(InvalidOperation(RecreateFailedMessage)))
      && (r.Returns? ==> Find(after, newEnroll) == Some(u.(enrollNumber := newEnroll)))
      && (DeleteUser(oldEnroll) !in refuses ==> Find(after, oldEnroll).None?
                                                && (!r.Returns? ==> after == Remove(before, oldEnroll)))
      && (DeleteUser(oldEnroll) in refuses ==> Find(after, oldEnroll) == Some(u) && (!r.Returns? ==> after == before))
      && forall other | other != oldEnroll && other != newEnroll :: Find(after, other) == Find(before, other)
  {
    var u := Find(before, oldEnroll).value;
    var v := u.(enrollNumber := newEnroll);
    var afterDelete := if DeleteUser(oldEnroll) !in refuses then Remove(before, oldEnroll) else before;
    RemoveFind(before, oldEnroll, oldEnroll);
    UpsertFind(afterDelete, v, oldEnroll);
    UpsertFind(afterDelete, v, newEnroll);
    forall other | other != oldEnroll && other != newEnroll ensures Find(after, other) == Find(before, other) {
      RemoveFind(before, oldEnroll, other);
      UpsertFind(afterDelete, v, other);
    }
  }

  /** The try block of ChangeEnrollNumber's lambda. */
  method ChangeEnrollBody(d: Device, oldEnroll: string, newEnroll: string) returns (r: Outcome<()>)
    requires d.Valid()
    modifies d`cardBuffer, d`users, d`templates
    ensures d.Valid()
    ensures EnrollChanged(d.refuses, d.raises, old(d.users), oldEnroll, newEnroll, r, d.users)
  {
    var oldRecord := d.GetUserInfo(oldEnroll);
    if oldRecord.Throws? {
      return Throws(oldRecord.error);
    }
    if oldRecord.value.None? {
      return Throws(KeyNotFound(OldNotFoundMessage));
    }
    var u := oldRecord.value.value;
    var newRecord := d.GetUserInfo(newEnroll);
    if newRecord.Throws? {
      return Throws(newRecord.error);
    }
    if newRecord.value.Some? {
      return Throws(InvalidOperation(NewTakenMessage));
    }
    var cardOk, card := d.GetStrCardNumber();
    var deleted := d.DeleteEnrollData(oldEnroll);
    var saved := d.SetUserInfo(newEnroll, u.name, u.password, u.privilege, u.enabled, card);
    if !saved {
      return Throws(InvalidOperation(RecreateFailedMessage));
    }
    r := Returns(());
  }

  /** What ChangeEnrollNumber's lambda does once connected. */
  method ChangeConnected(d: Device, oldEnroll: string, newEnroll: string) returns (r: Outcome<()>)
    requires d.Valid() && d.connected
    modifies d`connected, d`enabled, d`trace, d`cardBuffer, d`users, d`templates
    ensures d.Valid()
    ensures d.trace == old(d.trace) + [Enabled(false)] + [Enabled(true)] + [Disconnected]
    ensures d.enabled && !d.connected
    ensures EnrollChanged(d.refuses, d.raises, old(d.users), oldEnroll, newEnroll, r, d.users)
  {
    var _ := d.EnableDevice(false);
    r := ChangeEnrollBody(d, oldEnroll, newEnroll);
    var _ := d.EnableDevice(true);
    d.Disconnect();
  }

  /** One run of ChangeEnrollNumber's lambda. */
  method ChangeEnrollAttempt(d: Device, ip: string, port: int, oldEnroll: string, newEnroll: string) returns (r: Outcome<()>)
    requires d.Valid()
    modifies d`connected, d`enabled, d`trace, d`cardBuffer, d`users, d`templates
    ensures d.Valid()
    ensures d.trace == old(d.trace) + Bracket(Connect !in d.refuses, [])
    ensures Connect !in d.refuses ==> d.enabled && !d.connected
    ensures Connect in d.refuses ==> r == Throws(InvalidOperation(ConnectFailedMessage)) && d.users == old(d.users)
    ensures Connect !in d.refuses ==> EnrollChanged(d.refuses, d.raises, old(d.users), oldEnroll, newEnroll, r, d.users)
    ensures Connect !in d.refuses && oldEnroll !in d.raises && !Exists(d.refuses, old(d.users), oldEnroll) ==>
      r == Throws(KeyNotFound(OldNotFoundMessage)) && d.users == old(d.users)
    ensures Connect !in d.refuses && oldEnroll !in d.raises && newEnroll !in d.raises
            && Exists(d.refuses, old(d.users), oldEnroll) && Exists(d.refuses, old(d.users), newEnroll) ==>
      r == Throws(InvalidOperation(NewTakenMessage)) && d.users == old(d.users)
    ensures Connect !in d.refuses && oldEnroll !in d.raises && newEnroll !in d.raises
            && Exists(d.refuses, old(d.users), oldEnroll) && !Exists(d.refuses, old(d.users), newEnroll) ==>
      var u := Find(old(d.users), oldEnroll).value;
      var card := AsListed(d.refuses, u).cardNumber;
      (r.Returns? <==> (card == [] || WriteCard(card) !in d.refuses) && SaveUser(newEnroll) !in d.refuses)
      && (r.Returns? ==> Find(d.users, newEnroll) == Some(u.(enrollNumber := newEnroll)))
      && (DeleteUser(oldEnroll) !in d.refuses ==>
            Find(d.users, oldEnroll).None?
            && (!r.Returns? ==> r == Throws(InvalidOperation(RecreateFailedMessage)) && d.users == Remove(old(d.users), oldEnroll)))
      && (DeleteUser(oldEnroll) in d.refuses ==> Find(d.users, oldEnroll) == Some(u))
      && forall other | other != oldEnroll && other != newEnroll :: Find(d.users, other) == Find(old(d.users), other)
  {
    var connected := d.ConnectNet(ip, port);
    if !connected {
      return Throws(InvalidOperation(ConnectFailedMessage));
    }
    ghost var before := d.users;
    r := ChangeConnected(d, oldEnroll, newEnroll);
    if oldEnroll !in d.raises && newEnroll !in d.raises
       && Exists(d.refuses, before, oldEnroll) && !Exists(d.refuses, before, newEnroll) {
      EnrollChangedFinds(d.refuses, d.raises, before, oldEnroll, newEnroll, r, d.users);
    }
    BracketTraceEmpty(old(d.trace));
  }

  function ChangeEnrollResponse(o: Outcome<()>): (r: Response<string>)
    ensures r.Ok? <==> o.Returns?
    ensures r.NotFound? <==> o.Throws? && o.error.KeyNotFound?
    ensures r.ServerError? ==> r.message == "Błąd podczas zmiany numeru ewidencyjnego: " + o.error.Message()
  {
    match o
    case Returns(_) => Ok(ChangedMessage)
    case Throws(KeyNotFound(m)) => NotFound(m)
    case Throws(e) => ServerError("Błąd podczas zmiany numeru ewidencyjnego: " + e.Message())
  }

  /** A recreate that fails after the old record was deleted leaves the employee deleted; the
      manager retries the lambda, the retry no longer finds the old number, and the caller
      receives 404 for an employee that existed when the request arrived. */
  method ChangeEnrollAfterFailedRecreate(ip: string, port: int, u: UserInfo, newEnroll: string)
    returns (first: Outcome<()>, second: Outcome<()>, remaining: seq<UserInfo>)
    requires u.enrollNumber != newEnroll
    ensures first == Throws(InvalidOperation(RecreateFailedMessage))
    ensures second == Throws(KeyNotFound(OldNotFoundMessage))
    ensures remaining == []
  {
    var d := new Device({SaveUser(newEnroll)}, {}, [u], map[], [], [], Calendar.RawTime(2024, 1, 1, 0, 0, 0));
    first := ChangeEnrollAttempt(d, ip, port, u.enrollNumber, newEnroll);
    RemoveFind([u], u.enrollNumber, u.enrollNumber);
    assert Remove([u], u.enrollNumber) == [];
    second := ChangeEnrollAttempt(d, ip, port, u.enrollNumber, newEnroll);
    remaining := d.users;
  }

  /** With the default three attempts, a failed recreate followed by two runs that no longer
      find the old number is answered with 404. */
  lemma FailedRecreateIsReportedNotFound(key: string, env: Env<()>)
    requires env.factoryError.None?
    requires env.attempts(0) == Attempt(false, Throws(InvalidOperation(RecreateFailedMessage)), false)
    requires env.attempts(1) == Attempt(false, Throws(KeyNotFound(OldNotFoundMessage)), false)
    requires env.attempts(2) == Attempt(false, Throws(KeyNotFound(OldNotFoundMessage)), false)
    ensures Held(key, Defaults, env) == Finished(Throws(KeyNotFound(OldNotFoundMessage)))
    ensures ChangeEnrollResponse(Held(key, Defaults, env).outcome) == NotFound(OldNotFoundMessage)
  {
    RetryPersistentFailure(key, Defaults, env.attempts);
  }

  // ---------------------------------------------------------------------------------------
  // save-batch

  /** One employee of the batch, on reader state (users, buffer): (entry, users', buffer'). */
  function BatchStep(refuses: set<Call>, raises: set<string>, users: seq<UserInfo>, buffer: string, e: Employee)
    : (BatchEntry, seq<UserInfo>, string)
  {
    if e.enrollNumber in raises then
      (BatchEntry(e.enrollNumber, false, LookupFaultMessage, "Error"), users, buffer)
    else
      var exists_ := Exists(refuses, users, e.enrollNumber);
      var buffer1 := if exists_ then Find(users, e.enrollNumber).value.cardNumber else buffer;
      var (buffer2, ok, users2) := SaveOutcome(refuses, users, buffer1, e.enrollNumber, e.name,
                                               e.password.GetOr([]), e.privilege, e.enabled, e.cardNumber.GetOr([]));
      var entry := if !ok then BatchEntry(e.enrollNumber, false, SaveFailedMessage, "Failed")
                   else if exists_ then BatchEntry(e.enrollNumber, true, "Zaktualizowano", "Updated")
                   else BatchEntry(e.enrollNumber, true, "Dodano", "Added");
      (entry, users2, buffer2)
  }

  /** The foreach over the batch, as a left fold: (entries, users, buffer). */
  function BatchFold(refuses: set<Call>, raises: set<string>, users: seq<UserInfo>, buffer: string, es: seq<Employee>)
    : (seq<BatchEntry>, seq<UserInfo>, string)
  {
    if es == [] then ([], users, buffer)
    else
      var (entries, users', buffer') := BatchFold(refuses, raises, users, buffer, es[..|es| - 1]);
      var (entry, users'', buffer'') := BatchStep(refuses, raises, users', buffer', es[|es| - 1]);
      (entries + [entry], users'', buffer'')
  }

  /** Whether the reader accepts SSR_SetUserInfo for the employee: its card number, when it
      has one, is written to the buffer, and the record is stored. */
  predicate Accepted(refuses: set<Call>, e: Employee) {
    var card := e.cardNumber.GetOr([]);
    (card == [] || WriteCard(card) !in refuses) && SaveUser(e.enrollNumber) !in refuses
  }

  /** One iteration's entry: Error when the lookup throws, otherwise Updated or Added when the
      reader accepts the save (Updated when the number was already listed) and Failed when not. */
  lemma BatchStepEntry(refuses: set<Call>, raises: set<string>, users: seq<UserInfo>, buffer: string, e: Employee)
    ensures var entry := BatchStep(refuses, raises, users, buffer, e).0;
      entry.enrollNumber == e.enrollNumber
      && (entry.action == "Error" <==> e.enrollNumber in raises)
      && (entry.success <==> e.enrollNumber !in raises && Accepted(refuses, e))
      && (entry.action == "Failed" <==> e.enrollNumber !in raises && !Accepted(refuses, e))
      && (entry.action == "Updated" <==> entry.success && Exists(refuses, users, e.enrollNumber))
      && (entry.action == "Added" <==> entry.success && !Exists(refuses, users, e.enrollNumber))
  {
    if e.enrollNumber !in raises {
      var buffer1 := if Exists(refuses, users, e.enrollNumber) then Find(users, e.enrollNumber).value.cardNumber else buffer;
      SaveOutcomeStores(refuses, users, buffer1, e.enrollNumber, e.name, e.password.GetOr([]), e.privilege,
                        e.enabled, e.cardNumber.GetOr([]), e.enrollNumber);
    }
  }

  /** Each employee's entry is the one its own iteration produces, on the reader state the
      employees before it left behind. */
  lemma {:induction false} BatchFoldEntryAt(refuses: set<Call>, raises: set<string>, users: seq<UserInfo>,
                                            buffer: string, es: seq<Employee>, i: nat)
    requires i < |es|
    ensures |BatchFold(refuses, raises, users, buffer, es).0| == |es|
    ensures var (_, users', buffer') := BatchFold(refuses, raises, users, buffer, es[..i]);
      BatchFold(refuses, raises, users, buffer, es).0[i] == BatchStep(refuses, raises, users', buffer', es[i]).0
    decreases |es|
  {
    var prefix := es[..|es| - 1];
    if i < |prefix| {
      BatchFoldEntryAt(refuses, raises, users, buffer, prefix, i);
      assert prefix[i] == es[i] && prefix[..i] == es[..i];
    } else {
      assert es[..i] == prefix;
      if prefix != [] {
        BatchFoldEntryAt(refuses, raises, users, buffer, prefix, 0);
      }
    }
  }

  /** The batch yields one entry per employee, in input order, whatever happens to the others:
      Error exactly when the lookup threw, success exactly when the reader accepted that save,
      Failed exactly when it did not, and Updated exactly when the save succeeded on a number
      the reader listed after the employees before it. */
  lemma BatchEntries(refuses: set<Call>, raises: set<string>, users: seq<UserInfo>, buffer: string, es: seq<Employee>)
    ensures var entries := BatchFold(refuses, raises, users, buffer, es).0;
      |entries| == |es|
      && forall i | 0 <= i < |es| ::
           entries[i].enrollNumber == es[i].enrollNumber
           && (entries[i].action == "Error" <==> es[i].enrollNumber in raises)
           && (entries[i].success <==> entries[i].action == "Updated" || entries[i].action == "Added")
           && (entries[i].success <==> es[i].enrollNumber !in raises && Accepted(refuses, es[i]))
           && (entries[i].action == "Failed" <==> es[i].enrollNumber !in raises && !Accepted(refuses, es[i]))
           && (entries[i].action == "Updated" <==>
                 entries[i].success && Exists(refuses, BatchFold(refuses, raises, users, buffer, es[..i]).1, es[i].enrollNumber))
  {
    if es != [] {
      BatchFoldEntryAt(refuses, raises, users, buffer, es, 0);
    }
    var entries := BatchFold(refuses, raises, users, buffer, es).0;
    forall i | 0 <= i < |es|
      ensures entries[i].enrollNumber == es[i].enrollNumber
      ensures entries[i].action == "Error" <==> es[i].enrollNumber in raises
      ensures entries[i].success <==> entries[i].action == "Updated" || entries[i].action == "Added"
      ensures entries[i].success <==> es[i].enrollNumber !in raises && Accepted(refuses, es[i])
      ensures entries[i].action == "Failed" <==> es[i].enrollNumber !in raises && !Accepted(refuses, es[i])
      ensures entries[i].action == "Updated" <==>
                entries[i].success && Exists(refuses, BatchFold(refuses, raises, users, buffer, es[..i]).1, es[i].enrollNumber)
    {
      BatchFoldEntryAt(refuses, raises, users, buffer, es, i);
      var (_, users', buffer') := BatchFold(refuses, raises, users, buffer, es[..i]);
      BatchStepEntry(refuses, raises, users', buffer', es[i]);
    }
  }

  /** The try block of SaveEmployees' lambda: the foreach, each iteration with its own catch. */
  method BatchBody(d: Device, es: seq<Employee>) returns (entries: seq<BatchEntry>)
    requires d.Valid()
    modifies d`cardBuffer, d`users
    ensures d.Valid()
    ensures (entries, d.users, d.cardBuffer) == BatchFold(d.refuses, d.raises, old(d.users), old(d.cardBuffer), es)
  {
    entries := [];
    var i := 0;
    while i < |es|
      invariant 0 <= i <= |es| && d.Valid()
      invariant (entries, d.users, d.cardBuffer) == BatchFold(d.refuses, d.raises, old(d.users), old(d.cardBuffer), es[..i])
    {
      var e := es[i];
      assert es[..i + 1][..i] == es[..i];
      var found := d.GetUserInfo(e.enrollNumber);
      if found.Throws? {
        entries := entries + [BatchEntry(e.enrollNumber, false, found.error.Message(), "Error")];
      } else {
        var saved := d.SetUserInfo(e.enrollNumber, e.name, e.password.GetOr([]), e.privilege, e.enabled, e.cardNumber.GetOr([]));
        var entry := if !saved then BatchEntry(e.enrollNumber, false, SaveFailedMessage, "Failed")
                     else if found.value.Some? then BatchEntry(e.enrollNumber, true, "Zaktualizowano", "Updated")
                     else BatchEntry(e.enrollNumber, true, "Dodano", "Added");
        entries := entries + [entry];
      }
      i := i + 1;
    }
    assert es[..|es|] == es;
  }

  /** One run of SaveEmployees' lambda. */
  method SaveEmployeesAttempt(d: Device, ip: string, port: int, es: seq<Employee>) returns (r: Outcome<seq<BatchEntry>>)
    requires d.Valid()
    modifies d`connected, d`enabled, d`trace, d`cardBuffer, d`users
    ensures d.Valid()
    ensures d.trace == old(d.trace) + Bracket(Connect !in d.refuses, [])
    ensures Connect !in d.refuses ==> d.enabled && !d.connected
    ensures Connect in d.refuses ==> r == Throws(InvalidOperation(ConnectFailedMessage)) && d.users == old(d.users)
    ensures Connect !in d.refuses ==>
      r == Returns(BatchFold(d.refuses, d.raises, old(d.users), old(d.cardBuffer), es).0)
      && d.users == BatchFold(d.refuses, d.raises, old(d.users), old(d.cardBuffer), es).1
  {
    var connected := d.ConnectNet(ip, port);
    if !connected {
      return Throws(InvalidOperation(ConnectFailedMessage));
    }
    var _ := d.EnableDevice(false);
    var entries := BatchBody(d, es);
    r := Returns(entries);
    var _ := d.EnableDevice(true);
    d.Disconnect();
    BracketTraceEmpty(old(d.trace));
  }

  /** SaveEmployees: an empty list is answered with 400 before the manager is used; otherwise
      the lambda runs under the manager and its outcome becomes the response. None stands for
      a call that is still waiting for the reader's permit or never ends. */
  method SaveEmployees(m: Manager, ip: string, port: int, es: seq<Employee>, env: Env<seq<BatchEntry>>)
    returns (r: Option<Response<seq<BatchEntry>>>)
    requires m.Valid()
    modifies m`slots, m`devicesBuilt, if DeviceKey(ip, port) in m.slots then {m.slots[DeviceKey(ip, port)]} else {}
    ensures m.Valid()
    ensures es == [] ==>
      r == Some(BadRequest(EmptyBatchMessage)) && m.slots == old(m.slots) && m.devicesBuilt == old(m.devicesBuilt)
      && m.Counts() == old(m.Counts())
    ensures es != [] && r.Some? ==> r.value.Ok? || r.value.ServerError?
  {
    if es == [] {
      return Some(BadRequest(EmptyBatchMessage));
    }
    var done := m.Execute(ip, port, env);
    r := if done.Done? then Some(SaveEmployeesResponse(done.outcome)) else None;
  }

  function SaveEmployeesResponse(o: Outcome<seq<BatchEntry>>): (r: Response<seq<BatchEntry>>)
    ensures r.Ok? <==> o.Returns?
    ensures r.ServerError? ==> r.message == "Błąd podczas zapisywania danych pracowników: " + o.error.Message()
  {
    match o
    case Returns(entries) => Ok(entries)
    case Throws(e) => ServerError("Błąd podczas zapisywania danych pracowników: " + e.Message())
  }

  // ---------------------------------------------------------------------------------------
  // delete and delete-all

  /** The try block of DeleteEmployee's lambda. */
  method DeleteBody(d: Device, enroll: string) returns (r: Outcome<()>)
    requires d.Valid()
    modifies d`cardBuffer, d`users, d`templates
    ensures d.Valid()
    ensures enroll in d.raises ==> r == Throws(DeviceFault(LookupFaultMessage)) && d.users == old(d.users)
    ensures enroll !in d.raises && !Exists(d.refuses, old(d.users), enroll) ==>
      r == Throws(KeyNotFound(NotFoundMessage)) && d.users == old(d.users) && d.templates == old(d.templates)
    ensures enroll !in d.raises && Exists(d.refuses, old(d.users), enroll) ==>
      if DeleteUser(enroll) in d.refuses then r == Throws(InvalidOperation(DeleteFailedMessage)) && d.users == old(d.users)
      else r == Returns(()) && d.users == Remove(old(d.users), enroll)
           && d.templates == WithoutTemplatesOf(old(d.templates), enroll)
  {
    var found := d.GetUserInfo(enroll);
    if found.Throws? {
      return Throws(found.error);
    }
    if found.value.None? {
      return Throws(KeyNotFound(NotFoundMessage));
    }
    var deleted := d.DeleteEnrollData(enroll);
    if !deleted {
      return Throws(InvalidOperation(DeleteFailedMessage));
    }
    r := Returns(());
  }

  /** One run of DeleteEmployee's lambda: a missing employee is KeyNotFoundException and nothing
      is removed; otherwise the record goes and every other record stays. */
  method DeleteEmployeeAttempt(d: Device, ip: string, port: int, enroll: string) returns (r: Outcome<()>)
    requires d.Valid()
    modifies d`connected, d`enabled, d`trace, d`cardBuffer, d`users, d`templates
    ensures d.Valid()
    ensures d.trace == old(d.trace) + Bracket(Connect !in d.refuses, [])
    ensures Connect !in d.refuses ==> d.enabled && !d.connected
    ensures Connect in d.refuses ==> r == Throws(InvalidOperation(ConnectFailedMessage)) && d.users == old(d.users)
    ensures Connect !in d.refuses && enroll !in d.raises ==>
      (r == Throws(KeyNotFound(NotFoundMessage)) <==> !Exists(d.refuses, old(d.users), enroll))
      && (!Exists(d.refuses, old(d.users), enroll) ==> d.users == old(d.users))
      && (r.Returns? ==> Find(d.users, enroll).None?
                         && forall other | other != enroll :: Find(d.users, other) == Find(old(d.users), other))
  {
    var connected := d.ConnectNet(ip, port);
    if !connected {
      return Throws(InvalidOperation(ConnectFailedMessage));
    }
    var _ := d.EnableDevice(false);
    r := DeleteBody(d, enroll);
    if r.Returns? {
      RemoveFind(old(d.users), enroll, enroll);
      forall other | other != enroll ensures Find(d.users, other) == Find(old(d.users), other) {
        RemoveFind(old(d.users), enroll, other);
      }
    }
    var _ := d.EnableDevice(true);
    d.Disconnect();
    BracketTraceEmpty(old(d.trace));
  }

  function DeleteEmployeeResponse(o: Outcome<()>): (r: Response<string>)
    ensures r.Ok? <==> o.Returns?
    ensures r.NotFound? <==> o.Throws? && o.error.KeyNotFound?
    ensures r.ServerError? ==> r.message == "Błąd podczas usuwania pracownika: " + o.error.Message()
  {
    match o
    case Returns(_) => Ok(DeletedMessage)
    case Throws(KeyNotFound(m)) => NotFound(m)
    case Throws(e) => ServerError("Błąd podczas usuwania pracownika: " + e.Message())
  }

  /** One run of DeleteAllEmployees' lambda: ClearData(5) empties the user table. */
  method DeleteAllEmployeesAttempt(d: Device, ip: string, port: int) returns (r: Outcome<()>)
    requires d.Valid()
    modifies d`connected, d`enabled, d`trace, d`users, d`templates
    ensures d.Valid()
    ensures d.trace == old(d.trace) + Bracket(Connect !in d.refuses, [])
    ensures Connect !in d.refuses ==> d.enabled && !d.connected
    ensures Connect in d.refuses ==> r == Throws(InvalidOperation(ConnectFailedMessage)) && d.users == old(d.users)
    ensures Connect !in d.refuses ==>
      if ClearUsers in d.refuses then r == Throws(InvalidOperation(ClearFailedMessage)) && d.users == old(d.users)
      else r == Returns(()) && d.users == []
  {
    var connected := d.ConnectNet(ip, port);
    if !connected {
      return Throws(InvalidOperation(ConnectFailedMessage));
    }
    var _ := d.EnableDevice(false);
    var cleared := d.ClearData();
    r := if cleared then Returns(()) else Throws(InvalidOperation(ClearFailedMessage));
    var _ := d.EnableDevice(true);
    d.Disconnect();
    BracketTraceEmpty(old(d.trace));
  }

  function DeleteAllEmployeesResponse(o: Outcome<()>): (r: Response<string>)
    ensures r.Ok? <==> o.Returns?
    ensures r.ServerError? ==> r.message == "Błąd podczas usuwania pracowników: " + o.error.Message()
  {
    match o
    case Returns(_) => Ok(ClearedMessage)
    case Throws(e) => ServerError("Błąd podczas usuwania pracowników: " + e.Message())
  }
}
