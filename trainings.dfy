/**
 * The training routes: create with the caller as owner, owner-or-admin access
 * to one record, versioned update, delete, the caller's own list, and the
 * admin list. The routes run after the authentication gate, so each takes the
 * authenticated request user.
 */
module TrainingRoutes {
  import opened Common
  import opened Ordering
  import opened TrainingModel
  import Auth

  datatype TrainingError = BadRequest | NotFound | Forbidden | ServerError | AdminRequired

  function Status(e: TrainingError): int {
    match e
    case BadRequest => 400
    case NotFound => 404
    case Forbidden => 403
    case ServerError => 500
    case AdminRequired => 403
  }

  function Message(e: TrainingError): string {
    match e
    case BadRequest => "trainingCode and trainingEffectivenessPercent are required"
    case NotFound => "Not found"
    case Forbidden => "Forbidden"
    case ServerError => "Server error"
    case AdminRequired => Auth.AdminRequired
  }

  /** A stored record with its id. */
  datatype Stored = Stored(id: nat, training: Training)

  function StoredUpdatedAt(d: Stored): int {
    d.training.updatedAt
  }

  /** The owner-or-admin rule of get, update and delete. */
  predicate MayAccess(owner: UserRef, caller: Auth.ReqUser) {
    owner == caller.id || caller.role == Auth.AdminRole
  }

  /**
   * `POST /`: both fields must be sent and not null (400); the record is
   * owned by the caller and must pass the schema's validators (500).
   */
  function NewTraining(caller: Auth.ReqUser, code: BodyField<string>, percent: BodyField<real>, now: int)
    : (r: Result<Training, TrainingError>)
    ensures (!code.Given? || !percent.Given?) ==> r == Err(BadRequest)
    ensures r.Err? ==> r.error in {BadRequest, ServerError}
    ensures r.Ok? ==> && ValidTraining(r.value) && r.value.owner == caller.id
                      && r.value.trainingCode == Trim(code.value) && r.value.percent == percent.value
                      && r.value.versions == [] && r.value.createdAt == now && r.value.updatedAt == now
  {
    if !code.Given? || !percent.Given? then Err(BadRequest)
    else
      var t := Training(Trim(code.value), percent.value, caller.id, [], now, now);
      if ValidTraining(t) then Ok(t) else Err(ServerError)
  }

  /**
   * A create with both fields sent succeeds exactly when the trimmed code is
   * not blank, the percentage is in [0, 100] and the caller has an id.
   */
  lemma NewTrainingSucceeds(caller: Auth.ReqUser, c: string, p: real, now: int)
    ensures NewTraining(caller, Given(c), Given(p), now).Ok? <==>
              !Blank(c) && 0.0 <= p <= 100.0 && caller.id != ""
  {
    TrimBlank(c);
  }

  /**
   * `PUT /:id` on a record the caller may change: snapshot the current code
   * and percentage, assign the fields that were sent, and validate. A field
   * sent as null fails validation (500).
   */
  function Revise(t: Training, editor: Auth.ReqUser, code: BodyField<string>, percent: BodyField<real>, now: int)
    : (r: Result<Training, TrainingError>)
    ensures r.Err? ==> r.error == ServerError
  {
    if code.Null? || percent.Null? then Err(ServerError)
    else
      var snapshot := TrainingVersion(t.trainingCode, t.percent, editor.id, now);
      var t' := t.(versions := t.versions + [snapshot],
                   trainingCode := if code.Given? then Trim(code.value) else t.trainingCode,
                   percent := if percent.Given? then percent.value else t.percent,
                   updatedAt := now);
      if ValidTraining(t') then Ok(t') else Err(ServerError)
  }

  /**
   * A successful update appends exactly one version, holding the code and
   * percentage from before and the editor's id; earlier versions, the owner
   * and the creation time are untouched, and a field not sent keeps its value.
   */
  lemma ReviseAppendsSnapshot(t: Training, editor: Auth.ReqUser, code: BodyField<string>, percent: BodyField<real>, now: int)
    ensures var r := Revise(t, editor, code, percent, now);
            r.Ok? ==>
              && r.value.versions == t.versions + [TrainingVersion(t.trainingCode, t.percent, editor.id, now)]
              && r.value.owner == t.owner && r.value.createdAt == t.createdAt && r.value.updatedAt == now
              && r.value.trainingCode == (if code.Given? then Trim(code.value) else t.trainingCode)
              && r.value.percent == (if percent.Given? then percent.value else t.percent)
  {
  }

  /**
   * An update of a valid record fails only for a field sent as null or a sent
   * value the validators refuse; one that sends nothing always succeeds.
   */
  lemma ReviseSucceeds(t: Training, editor: Auth.ReqUser, code: BodyField<string>, percent: BodyField<real>, now: int)
    requires ValidTraining(t)
    ensures Revise(t, editor, code, percent, now).Ok? <==>
              && !code.Null? && !percent.Null?
              && (code.Given? ==> !Blank(code.value))
              && (percent.Given? ==> 0.0 <= percent.value <= 100.0)
  {
    if code.Given? {
      TrimBlank(code.value);
    }
  }

  /** The last version of an updated record gives back the code and percentage it replaced. */
  lemma ReviseIsUndoable(t: Training, editor: Auth.ReqUser, code: BodyField<string>, percent: BodyField<real>, now: int)
    requires Revise(t, editor, code, percent, now).Ok?
    ensures var v := Revise(t, editor, code, percent, now).value.versions;
            && |v| == |t.versions| + 1 && v[..|t.versions|] == t.versions
            && v[|v| - 1].trainingCode == t.trainingCode && v[|v| - 1].percent == t.percent
  {
    ReviseAppendsSnapshot(t, editor, code, percent, now);
    var v := Revise(t, editor, code, percent, now).value.versions;
    assert v[..|t.versions|] == t.versions;
  }

  /** Every record with a key below `n`, in key order. */
  function Collect(records: map<nat, Training>, n: nat): (r: seq<Stored>)
    ensures forall i :: 0 <= i < |r| ==> r[i].id < n && r[i].id in records && records[r[i].id] == r[i].training
    ensures forall k :: k in records && k < n ==> Stored(k, records[k]) in r
    ensures forall i, j :: 0 <= i < j < |r| ==> r[i].id < r[j].id
  {
    if n == 0 then []
    else Collect(records, n - 1) + (if n - 1 in records then [Stored(n - 1, records[n - 1])] else [])
  }

  /** The stored records owned by `owner`, in the order given. */
  function OwnedBy(s: seq<Stored>, owner: UserRef): (r: seq<Stored>)
    ensures forall i :: 0 <= i < |r| ==> r[i].training.owner == owner && r[i] in s
    ensures forall d :: d in s && d.training.owner == owner ==> d in r
    ensures forall d :: multiset(r)[d] <= multiset(s)[d]
  {
    if s == [] then []
    else
      assert s == [s[0]] + s[1..];
      (if s[0].training.owner == owner then [s[0]] else []) + OwnedBy(s[1..], owner)
  }

  /** `GET /mine`: the caller's records, most recently updated first. */
  function MineOf(records: map<nat, Training>, n: nat, caller: Auth.ReqUser): seq<Stored> {
    SortNewestFirst(OwnedBy(Collect(records, n), caller.id), StoredUpdatedAt)
  }

  /**
   * The list holds the caller's records and no other, each once, with each
   * stored record shown as stored, most recently updated first.
   */
  lemma MineIsOwnedAndComplete(records: map<nat, Training>, n: nat, caller: Auth.ReqUser)
    requires forall k :: k in records ==> k < n
    ensures var r := MineOf(records, n, caller);
            && NewestFirst(r, StoredUpdatedAt)
            && (forall d :: d in r <==> d.id in records && records[d.id] == d.training && d.training.owner == caller.id)
            && (forall d :: multiset(r)[d] <= 1)
  {
    var all := Collect(records, n);
    var own := OwnedBy(all, caller.id);
    var r := MineOf(records, n, caller);
    assert multiset(r) == multiset(own);
    forall d: Stored ensures multiset(r)[d] <= 1 {
      CollectOnce(all, d);
    }
    forall d: Stored ensures d in r <==> d.id in records && records[d.id] == d.training && d.training.owner == caller.id {
      assert d in r <==> d in multiset(own);
      if d.id in records && records[d.id] == d.training && d.training.owner == caller.id {
        assert d == Stored(d.id, records[d.id]);
        assert d in all;
      }
    }
  }

  /** In a sequence with strictly increasing ids each element occurs at most once. */
  lemma {:induction false} CollectOnce(s: seq<Stored>, d: Stored)
    requires forall i, j :: 0 <= i < j < |s| ==> s[i].id < s[j].id
    ensures multiset(s)[d] <= 1
  {
    if s != [] {
      assert s == [s[0]] + s[1..];
      CollectOnce(s[1..], d);
      if s[0] == d {
        assert d !in s[1..];
      }
    }
  }

  /** The admin list: every record, or those of `ownerId` when a non-empty one is sent. */
  function AdminListOf(records: map<nat, Training>, n: nat, caller: Option<Auth.ReqUser>, ownerId: Option<string>)
    : (r: Result<seq<Stored>, TrainingError>)
    ensures r.Ok? <==> Auth.AdminOnly(caller).Next?
    ensures r.Err? ==> r.error == AdminRequired
  {
    if !Auth.AdminOnly(caller).Next? then Err(AdminRequired)
    else if ownerId.Some? && ownerId.value != "" then Ok(OwnedBy(Collect(records, n), ownerId.value))
    else Ok(Collect(records, n))
  }

  /**
   * An admin sees every record when no owner is named, and exactly the named
   * owner's records otherwise.
   */
  lemma AdminListContents(records: map<nat, Training>, n: nat, caller: Auth.ReqUser, ownerId: Option<string>)
    requires caller.role == Auth.AdminRole
    requires forall k :: k in records ==> k < n
    ensures var r := AdminListOf(records, n, Some(caller), ownerId);
            && r.Ok?
            && forall d :: d in r.value <==>
                 d.id in records && records[d.id] == d.training
                 && (ownerId.Some? && ownerId.value != "" ==> d.training.owner == ownerId.value)
  {
    var all := Collect(records, n);
    forall d: Stored | d.id in records && records[d.id] == d.training
      ensures d in all
    {
      assert d == Stored(d.id, records[d.id]);
    }
  }

  /** The training collection: records by id, and the next id to hand out. */
  class TrainingStore {
    var records: map<nat, Training>
    var nextKey: nat

    ghost predicate Valid()
      reads this
    {
      && (forall k :: k in records ==> k < nextKey)
      && (forall k :: k in records ==> ValidTraining(records[k]))
    }

    constructor()
      ensures Valid() && records == map[] && nextKey == 0
    {
      records := map[];
      nextKey := 0;
    }

    /**
     * `POST /`. There is no uniqueness on (owner, code): whether a create
     * succeeds does not depend on the records already stored.
     */
    method Create(caller: Auth.ReqUser, code: BodyField<string>, percent: BodyField<real>, now: int)
      returns (r: Result<Stored, TrainingError>)
      requires Valid()
      modifies this
      ensures Valid()
      ensures r.Ok? <==> NewTraining(caller, code, percent, now).Ok?
      ensures r.Err? ==> r.error == NewTraining(caller, code, percent, now).error
                         && records == old(records) && nextKey == old(nextKey)
      ensures r.Ok? ==> && r.value == Stored(old(nextKey), NewTraining(caller, code, percent, now).value)
                        && records == old(records)[old(nextKey) := r.value.training]
                        && nextKey == old(nextKey) + 1
    {
      var t := NewTraining(caller, code, percent, now);
      if t.Err? {
        return Err(t.error);
      }
      r := Ok(Stored(nextKey, t.value));
      records := records[nextKey := t.value];
      nextKey := nextKey + 1;
    }

    /** `GET /:id`: not found before forbidden. */
    function Get(caller: Auth.ReqUser, id: nat): (r: Result<Training, TrainingError>)
      reads this
      ensures id !in records ==> r == Err(NotFound)
      ensures id in records && !MayAccess(records[id].owner, caller) ==> r == Err(Forbidden)
      ensures r.Ok? <==> id in records && MayAccess(records[id].owner, caller)
      ensures r.Ok? ==> r.value == records[id]
    {
      if id !in records then Err(NotFound)
      else if !MayAccess(records[id].owner, caller) then Err(Forbidden)
      else Ok(records[id])
    }

    /**
     * `PUT /:id`: not found, then forbidden, both changing nothing; otherwise
     * the record is revised in place and saved when valid.
     */
    method Update(caller: Auth.ReqUser, id: nat, code: BodyField<string>, percent: BodyField<real>, now: int)
      returns (r: Result<Training, TrainingError>)
      requires Valid()
      modifies this
      ensures Valid() && nextKey == old(nextKey)
      ensures id !in old(records) ==> r == Err(NotFound)
      ensures id in old(records) && !MayAccess(old(records)[id].owner, caller) ==> r == Err(Forbidden)
      ensures id in old(records) && MayAccess(old(records)[id].owner, caller) ==>
                r == Revise(old(records)[id], caller, code, percent, now)
      ensures r.Err? ==> records == old(records)
      ensures r.Ok? ==> records == old(records)[id := r.value]
    {
      if id !in records {
        return Err(NotFound);
      }
      var training := records[id];
      if !MayAccess(training.owner, caller) {
        return Err(Forbidden);
      }
      if code.Null? || percent.Null? {
        return Err(ServerError);
      }
      training := training.(versions := training.versions + [TrainingVersion(training.trainingCode, training.percent, caller.id, now)]);
      if code.Given? {
        training := training.(trainingCode := Trim(code.value));
      }
      if percent.Given? {
        training := training.(percent := percent.value);
      }
      training := training.(updatedAt := now);
      if !ValidTraining(training) {
        return Err(ServerError);
      }
      records := records[id := training];
      r := Ok(training);
    }

    /** `DELETE /:id`: not found, then forbidden; otherwise the record is gone. */
    method Delete(caller: Auth.ReqUser, id: nat) returns (r: Result<string, TrainingError>)
      requires Valid()
      modifies this
      ensures Valid() && nextKey == old(nextKey)
      ensures id !in old(records) ==> r == Err(NotFound)
      ensures id in old(records) ==> (r.Ok? <==> MayAccess(old(records)[id].owner, caller))
      ensures id in old(records) && !MayAccess(old(records)[id].owner, caller) ==> r == Err(Forbidden)
      ensures r.Err? ==> records == old(records)
      ensures r.Ok? ==> r.value == "Deleted" && records == old(records) - {id}
    {
      if id !in records {
        return Err(NotFound);
      }
      if !MayAccess(records[id].owner, caller) {
        return Err(Forbidden);
      }
      records := records - {id};
      r := Ok("Deleted");
    }

    /** `GET /mine`. */
    function Mine(caller: Auth.ReqUser): (r: seq<Stored>)
      reads this
      requires Valid()
      ensures forall d :: d in r <==> d.id in records && records[d.id] == d.training && d.training.owner == caller.id
      ensures NewestFirst(r, StoredUpdatedAt)
    {
      MineIsOwnedAndComplete(records, nextKey, caller);
      MineOf(records, nextKey, caller)
    }

    /**
     * `GET /` behind `adminOnly`: an admin gets every stored record, or exactly
     * the records of `ownerId` when a non-empty one is sent; anyone else is
     * refused with 403 "Admin privileges required".
     */
    function AdminList(caller: Option<Auth.ReqUser>, ownerId: Option<string>): (r: Result<seq<Stored>, TrainingError>)
      reads this
      requires Valid()
      ensures r.Ok? <==> caller.Some? && caller.value.role == Auth.AdminRole
      ensures r.Err? ==> Status(r.error) == 403 && Message(r.error) == "Admin privileges required"
      ensures r.Ok? ==> forall d :: d in r.value <==>
                d.id in records && records[d.id] == d.training
                && (ownerId.Some? && ownerId.value != "" ==> d.training.owner == ownerId.value)
    {
      if caller.Some? && caller.value.role == Auth.AdminRole then
        AdminListContents(records, nextKey, caller.value, ownerId);
        AdminListOf(records, nextKey, caller, ownerId)
      else
        AdminListOf(records, nextKey, caller, ownerId)
    }
  }
}
