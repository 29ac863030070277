/** The request handlers of controller/UserController.java. The controller holds the service
    and the process-wide id generator; each handler is specified by a step function over the
    pair (store, counter), and the lemmas below are stated over those step functions. */
module UserController {
  import opened Wrappers
  import opened Entities
  import opened InputValidator
  import opened IdGenerator
  import opened ExceptionMapper
  import opened UserService

  /** `ResponseEntity<ResponseVO>`: HTTP status and body of a successful handler. */
  datatype Response = Response(status: int, body: ResponseVO)

  const OK: nat := 200
  const CREATED: nat := 201

  const CREATED_MESSAGE: string := "New user Created successfully"
  const UPDATED_MESSAGE: string := "User data updated successfully"
  const DELETED_MESSAGE: string := "User has been deleted"

  const INPUT_DATA_INVALID: UserException := NewUserException("INPUT.DATA.INVALID", "Input data not valid..")
  const USER_ID_INVALID: UserException := NewUserException("USER.ID.INVALID", "User to delete doesn´t exist")

  /** The state a handler sees and changes: the stored documents and the id counter. */
  datatype State = State(store: map<Long, User>, counter: Long)

  /** What a handler returns (or throws), and the state it leaves behind. */
  datatype Step = Step(outcome: Result<Response, Failure>, next: State)

  /** `isValidId`: true when the id is null or no document is stored under it. */
  predicate ValidId(store: map<Long, User>, id: Option<Long>)
    ensures ValidId(store, id) <==> !(id.Some? && id.value in store)
  {
    id.None? || id.value !in store
  }

  /** `setUserData` once `createID` has returned `id`: the payload's id is replaced. */
  function UserData(vo: UserVO, id: Long): (u: User)
    ensures u.id == Some(id)
    ensures u.name == vo.name && u.email == vo.email && u.profession == vo.profession
    ensures IsValidateInput(Some(vo)) ==> IsNotEmpty(u.name) && IsNotEmpty(u.email) && IsNotEmpty(u.profession)
  {
    User(Some(id), vo.name, vo.email, vo.profession)
  }

  /** `after` is `before` with `u` saved under its id: that id now holds `u` and every other
      record is as it was. */
  ghost predicate SavedOne(before: map<Long, User>, after: map<Long, User>, u: User)
  {
    u.id.Some? &&
    after.Keys == before.Keys + {u.id.value} &&
    after[u.id.value] == u &&
    forall k :: k in before && k != u.id.value ==> after[k] == before[k]
  }

  /** `addNewUser`: a null payload is refused by the log line's `toStringInput` before the
      check; an invalid payload is rejected; a valid one is saved under a fresh id. */
  function AddNewUserStep(s: State, vo: Option<UserVO>): (r: Step)
    ensures vo.None? ==> r == Step(Failure(Generic(None)), s)
    ensures r.outcome.Success? <==> IsValidateInput(vo)
    ensures vo.Some? && !IsValidateInput(vo) ==> r == Step(Failure(Domain(INPUT_DATA_INVALID)), s)
    ensures IsValidateInput(vo) ==>
      r.outcome.value == Response(CREATED, ResponseVO(true, CREATED_MESSAGE)) &&
      r.next.counter == Increment(s.counter) &&
      SavedOne(s.store, r.next.store, User(Some(s.counter), vo.value.name, vo.value.email, vo.value.profession))
  {
    if vo.None? then
      Step(Failure(Generic(None)), s)
    else if !IsValidateInput(vo) then
      Step(Failure(Domain(INPUT_DATA_INVALID)), s)
    else
      var u := UserData(vo.value, s.counter);
      Step(Success(Response(CREATED, ResponseVO(true, CREATED_MESSAGE))),
           State(s.store[s.counter := u], Increment(s.counter)))
  }

  /** `updateUser`, as written: a null payload is refused by the log line's `toStringInput`
      (and would be by `getId()` after it) with a generic exception; a payload
      whose id is stored is rejected; an accepted payload is saved under a fresh id. */
  function UpdateUserStep(s: State, vo: Option<UserVO>): (r: Step)
    ensures vo.None? ==> r == Step(Failure(Generic(None)), s)
    ensures r.outcome.Success? <==> vo.Some? && ValidId(s.store, vo.value.id) && IsValidateInput(vo)
    ensures vo.Some? && !r.outcome.Success? ==> r == Step(Failure(Domain(INPUT_DATA_INVALID)), s)
    ensures r.outcome.Success? ==>
      r.outcome.value == Response(OK, ResponseVO(true, UPDATED_MESSAGE)) &&
      r.next.counter == Increment(s.counter) &&
      SavedOne(s.store, r.next.store, User(Some(s.counter), vo.value.name, vo.value.email, vo.value.profession))
  {
    if vo.None? then
      Step(Failure(Generic(None)), s)
    else if !ValidId(s.store, vo.value.id) || !IsValidateInput(vo) then
      Step(Failure(Domain(INPUT_DATA_INVALID)), s)
    else
      var u := UserData(vo.value, s.counter);
      Step(Success(Response(OK, ResponseVO(true, UPDATED_MESSAGE))),
           State(s.store[s.counter := u], Increment(s.counter)))
  }

  /** `deleteUser`: rejects a null id and an id with no stored document, otherwise removes that
      one document. The counter is never touched. */
  function DeleteUserStep(s: State, id: Option<Long>): (r: Step)
    ensures r.outcome.Success? <==> id.Some? && id.value in s.store
    ensures !r.outcome.Success? ==> r == Step(Failure(Domain(USER_ID_INVALID)), s)
    ensures r.next.counter == s.counter
    ensures r.outcome.Success? ==>
      r.outcome.value == Response(OK, ResponseVO(true, DELETED_MESSAGE)) &&
      r.next.store.Keys == s.store.Keys - {id.value} &&
      forall k :: k in r.next.store ==> r.next.store[k] == s.store[k]
  {
    if ValidId(s.store, id) then
      Step(Failure(Domain(USER_ID_INVALID)), s)
    else
      Step(Success(Response(OK, ResponseVO(true, DELETED_MESSAGE))), State(s.store - {id.value}, s.counter))
  }

  /** The evidently intended update: the payload's id must name a stored document, which is
      replaced by the payload's fields under the same id; the counter is not advanced. */
  function UpdateUserIntendedStep(s: State, vo: Option<UserVO>): (r: Step)
    ensures vo.None? ==> r == Step(Failure(Generic(None)), s)
    ensures r.outcome.Success? <==>
      vo.Some? && vo.value.id.Some? && vo.value.id.value in s.store && IsValidateInput(vo)
    ensures vo.Some? && !r.outcome.Success? ==> r == Step(Failure(Domain(INPUT_DATA_INVALID)), s)
    ensures r.outcome.Success? ==>
      r.outcome.value == Response(OK, ResponseVO(true, UPDATED_MESSAGE)) &&
      r.next.counter == s.counter &&
      r.next.store.Keys == s.store.Keys &&
      SavedOne(s.store, r.next.store, User(vo.value.id, vo.value.name, vo.value.email, vo.value.profession))
  {
    if vo.None? then
      Step(Failure(Generic(None)), s)
    else if ValidId(s.store, vo.value.id) || !IsValidateInput(vo) then
      Step(Failure(Domain(INPUT_DATA_INVALID)), s)
    else
      var id := vo.value.id.value;
      Step(Success(Response(OK, ResponseVO(true, UPDATED_MESSAGE))),
           State(s.store[id := UserData(vo.value, id)], s.counter))
  }

  /** Every stored id was handed out earlier by this process's counter. It holds in a fresh
      process over an empty store, but not after a restart over a non-empty one. */
  ghost predicate IdsIssued(s: State)
  {
    0 <= s.counter &&
    forall k :: k in s.store ==> 0 <= k < s.counter
  }

  /** Every stored document sits under its own id and has its three text fields non-empty:
      the rule create and update enforce at the handler boundary. */
  ghost predicate WellFormed(store: map<Long, User>)
  {
    Keyed(store) &&
    forall k :: k in store ==> IsNotEmpty(store[k].name) && IsNotEmpty(store[k].email) && IsNotEmpty(store[k].profession)
  }

  /** Create, update and delete keep the store well formed. */
  lemma StepsKeepWellFormed(s: State, vo: Option<UserVO>, id: Option<Long>)
    requires WellFormed(s.store)
    ensures WellFormed(AddNewUserStep(s, vo).next.store)
    ensures WellFormed(UpdateUserStep(s, vo).next.store)
    ensures WellFormed(DeleteUserStep(s, id).next.store)
  {
  }

  /** While the counter has not reached `LONG_MAX` and every stored id was issued earlier, a
      successful create adds one new document and leaves every existing one in place. */
  lemma CreateAddsFreshRecord(s: State, vo: UserVO)
    requires IdsIssued(s) && s.counter < LONG_MAX && IsValidateInput(Some(vo))
    ensures var t := AddNewUserStep(s, Some(vo)).next;
      IdsIssued(t) && s.counter !in s.store &&
      |t.store| == |s.store| + 1 &&
      forall k :: k in s.store ==> k in t.store && t.store[k] == s.store[k]
  {
  }

  /** After a restart the counter is 0 again while the store keeps its documents: creating a
      user then overwrites the document with id 0 instead of adding one. */
  lemma CreateAfterRestartOverwrites(store: map<Long, User>, vo: UserVO)
    requires 0 in store && IsValidateInput(Some(vo))
    ensures var t := AddNewUserStep(State(store, 0), Some(vo)).next;
      |t.store| == |store| && t.store[0] == UserData(vo, 0)
  {
  }

  /** As written, update rejects every payload whose id names a stored document. */
  lemma UpdateRejectsStoredId(s: State, vo: UserVO)
    requires vo.id.Some? && vo.id.value in s.store
    ensures UpdateUserStep(s, Some(vo)) == Step(Failure(Domain(INPUT_DATA_INVALID)), s)
  {
  }

  /** As written, a successful update never replaces a document: the payload's id is ignored,
      the record goes under a fresh id and every existing record stays. */
  lemma UpdateNeverReplaces(s: State, vo: UserVO)
    requires IdsIssued(s) && s.counter < LONG_MAX
    requires UpdateUserStep(s, Some(vo)).outcome.Success?
    ensures var t := UpdateUserStep(s, Some(vo)).next;
      IdsIssued(t) &&
      |t.store| == |s.store| + 1 &&
      (vo.id.Some? && vo.id.value != s.counter ==> vo.id.value !in t.store) &&
      forall k :: k in s.store ==> k in t.store && t.store[k] == s.store[k]
  {
  }

  /** The payload that tells the two update definitions apart: a valid payload naming the one
      stored document is rejected as written and replaces that document as intended. */
  lemma UpdateWrittenVersusIntended()
    ensures var u := User(Some(5), Some("Ann"), Some("ann@x.com"), Some("Engineer"));
      var vo := UserVO(Some(5), Some("Ann"), Some("ann@x.com"), Some("Architect"));
      var s := State(map[5 := u], 6);
      UpdateUserStep(s, Some(vo)).outcome == Failure(Domain(INPUT_DATA_INVALID)) &&
      UpdateUserIntendedStep(s, Some(vo)).next.store == map[5 := UserData(vo, 5)]
  {
  }

  /** As intended, update replaces the three text fields and keeps the id and the number of
      documents. */
  lemma UpdateIntendedReplaces(s: State, vo: UserVO)
    requires vo.id.Some? && vo.id.value in s.store && IsValidateInput(Some(vo))
    ensures var t := UpdateUserIntendedStep(s, Some(vo)).next;
      |t.store| == |s.store| &&
      t.store[vo.id.value] == User(vo.id, vo.name, vo.email, vo.profession)
  {
  }

  /** A successful delete leaves no document under the id, so a later `getUser` yields null. */
  lemma DeleteThenGet(s: State, id: Long)
    requires id in s.store
    ensures var r := DeleteUserStep(s, Some(id));
      r.outcome.Success? && id !in r.next.store && |r.next.store| == |s.store| - 1
  {
  }

  /** A create with an empty name is answered with the INPUT.DATA.INVALID body and status 404. */
  lemma EmptyNameCreateReply(s: State, vo: UserVO)
    requires vo.name == Some("")
    ensures var r := AddNewUserStep(s, Some(vo));
      r.outcome.Failure? &&
      HandleFailure(r.outcome.error) ==
        ErrorEntity(ErrorResponse(false, Some("INPUT.DATA.INVALID"), Some("Input data not valid..")), NOT_FOUND)
  {
  }

  /** The state after creating the users of `vos` one after another, starting from `s`. */
  function CreateAll(s: State, vos: seq<UserVO>): State
  {
    if vos == [] then s else AddNewUserStep(CreateAll(s, vos[..|vos| - 1]), Some(vos[|vos| - 1])).next
  }

  /** In a fresh process over an empty store, creating n valid users hands out the ids
      0 .. n-1 in order and stores each payload's fields under its id. */
  lemma {:induction false} FreshProcessCreates(vos: seq<UserVO>)
    requires |vos| < LONG_MAX
    requires forall i :: 0 <= i < |vos| ==> IsValidateInput(Some(vos[i]))
    ensures var t := CreateAll(State(map[], 0), vos);
      t.counter == |vos| &&
      (forall k :: k in t.store <==> 0 <= k < |vos|) &&
      forall i :: 0 <= i < |vos| ==> t.store[i] == UserData(vos[i], i)
  {
    if vos != [] {
      var n := |vos| - 1;
      FreshProcessCreates(vos[..n]);
      var t0 := CreateAll(State(map[], 0), vos[..n]);
      assert t0.counter == n;
      assert forall i :: 0 <= i < n ==> vos[..n][i] == vos[i];
    }
  }

  class UserController {
    const service: UserServiceImpl
    const ids: IdGenerator

    ghost predicate Valid()
      reads this, service, ids
    {
      service.Valid() && ids.Valid()
    }

    /** The controller's state as the step functions see it. */
    function Snapshot(): State
      reads this, service, ids
    {
      State(service.store, ids.idCounter)
    }

    /** A process starting over the documents already in the database, with the counter at 0. */
    constructor (initial: map<Long, User>)
      requires Keyed(initial)
      ensures Valid() && fresh(service) && fresh(ids) && Snapshot() == State(initial, 0)
    {
      service := new UserServiceImpl(initial);
      ids := new IdGenerator();
    }

    /** `getAllUsers`: every stored document, one per stored id. */
    method GetAllUsers() returns (users: set<User>)
      requires Valid()
      ensures forall u :: u in users <==> exists k :: k in service.store && service.store[k] == u
      ensures |users| == |service.store|
    {
      users := service.GetAllUser();
    }

    /** `getUser`: the document stored under `id`, or null; it never throws. */
    method GetUser(id: Long) returns (user: Option<User>)
      ensures user.Some? <==> id in service.store
      ensures user.Some? ==> user.value == service.store[id]
    {
      user := service.GetUserById(id);
    }

    /** `isValidId`: true when `id` is null or the service finds no document under it. */
    function IsValidId(id: Option<Long>): (r: bool)
      reads this, service
      ensures r <==> id.None? || id.value !in service.store
      ensures r == ValidId(service.store, id)
    {
      id.None? || service.GetUserById(id.value).None?
    }

    /** `setUserData`: a new user with the next id and the payload's three text fields. */
    method SetUserData(vo: UserVO) returns (user: User)
      requires ids.Valid()
      modifies ids
      ensures ids.Valid() && ids.calls == old(ids.calls) + 1
      ensures ids.idCounter == Increment(old(ids.idCounter))
      ensures user == User(Some(old(ids.idCounter)), vo.name, vo.email, vo.profession)
      ensures user == UserData(vo, old(ids.idCounter))
    {
      var id := ids.CreateID();
      user := UserData(vo, id);
    }

    /** `addNewUser`. */
    method AddNewUser(vo: Option<UserVO>) returns (r: Result<Response, Failure>)
      requires Valid()
      modifies service, ids
      ensures Valid()
      ensures Step(r, Snapshot()) == AddNewUserStep(old(Snapshot()), vo)
    {
      if vo.None? {
        return Failure(Generic(None));
      }
      if !IsValidateInput(vo) {
        return Failure(Domain(INPUT_DATA_INVALID));
      }
      var user := SetUserData(vo.value);
      var saved := service.SaveUser(user);
      r := Success(Response(CREATED, ResponseVO(true, CREATED_MESSAGE)));
    }

    /** `updateUser`, as written. */
    method UpdateUser(vo: Option<UserVO>) returns (r: Result<Response, Failure>)
      requires Valid()
      modifies service, ids
      ensures Valid()
      ensures Step(r, Snapshot()) == UpdateUserStep(old(Snapshot()), vo)
    {
      if vo.None? {
        return Failure(Generic(None));
      }
      if !IsValidId(vo.value.id) || !IsValidateInput(vo) {
        return Failure(Domain(INPUT_DATA_INVALID));
      }
      var user := SetUserData(vo.value);
      var saved := service.SaveUser(user);
      r := Success(Response(OK, ResponseVO(true, UPDATED_MESSAGE)));
    }

    /** `deleteUser`. */
    method DeleteUser(id: Option<Long>) returns (r: Result<Response, Failure>)
      requires Valid()
      modifies service
      ensures Valid()
      ensures Step(r, Snapshot()) == DeleteUserStep(old(Snapshot()), id)
    {
      if IsValidId(id) {
        return Failure(Domain(USER_ID_INVALID));
      }
      var n := User(id, None, None, None);
      service.DeleteUser(n);
      r := Success(Response(OK, ResponseVO(true, DELETED_MESSAGE)));
    }
  }
}
