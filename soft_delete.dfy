/** The SoftDelete behaviour of an ActiveRecord owner.

    A record is live, soft-deleted (its delete attribute holds a timestamp) or
    physically gone (its row has been deleted). The behaviour is attached to its
    owner or detached from it: detach() sets the behaviour's `owner` to null,
    and the calls that go through it then throw (CallError). `safeMode`
    decides what a plain `delete()` does. The pure part (State and the functions over it) specifies each
    operation; the classes at the end are the imperative model, proved against
    it. The timestamp that `getValue(null)` evaluates is a parameter. */
module SoftDeleteBehavior {
  import opened Wrappers

  /** A column value of the owner record. */
  datatype Value = Null | Int(n: int) | Text(s: string)

  /** The lifecycle events an ActiveRecord raises. */
  datatype RecordEvent =
    | BeforeInsert | AfterInsert
    | BeforeUpdate | AfterUpdate
    | BeforeDelete | AfterDelete

  /** The behaviour's event handlers, by the method name events() gives. */
  datatype Handler = DoDeleteTimestamp

  /** Defaults of the public properties `attribute` and `safeMode`. */
  const DefaultAttribute: string := "delete_time"
  const DefaultSafeMode: bool := true

  /** events(): the behaviour answers the before-delete event and no other
      one; in particular the insert and update handlers of the timestamp
      behaviour it extends are not installed. */
  function Events(): (r: map<RecordEvent, Handler>)
    ensures forall e :: e in r <==> e == BeforeDelete
    ensures r[BeforeDelete] == DoDeleteTimestamp
  {
    map[BeforeDelete := DoDeleteTimestamp]
  }

  /** What `$model->delete()` returns: false when a handler cancelled it,
      otherwise the number of rows it removed. */
  datatype DeleteResult = Cancelled | Deleted(count: nat)

  /** The owner record together with the behaviour's configuration.
      `attributes` are the owner's in-memory values, `stored` its row in the
      database, which only means something while `rowExists` holds. */
  datatype State = State(
    attribute: string,
    safeMode: bool,
    attached: bool,
    rowExists: bool,
    attributes: map<string, Value>,
    stored: map<string, Value>)
  {
    /** The configured attribute must be a column of the owner. */
    predicate Valid() {
      attribute in attributes
    }

    /** The owner's delete timestamp, if it holds one. */
    function DeleteTime(): Option<int>
      requires Valid()
    {
      match attributes[attribute]
      case Int(n) => Some(n)
      case _ => None
    }

    /** Live and not soft-deleted. */
    predicate IsLive()
      requires Valid()
    {
      rowExists && attributes[attribute] == Null
    }

    /** The configuration and the row's existence are those of `s`. */
    predicate SameFrame(s: State) {
      attribute == s.attribute && safeMode == s.safeMode &&
      attached == s.attached && rowExists == s.rowExists
    }
  }

  /** `$owner->save(false, [name])`: the in-memory value of `name`, and only
      that one, is written to the stored row (a row that is gone is not
      written). */
  function SaveAttribute(s: State, name: string): State
    requires name in s.attributes
  {
    if s.rowExists then s.(stored := s.stored[name := s.attributes[name]]) else s
  }

  /** The error a call through the behaviour's owner raises once detach()
      has set that owner to null. */
  datatype CallError = OwnerIsNull

  /** The owner's attribute set to `v` and persisted alone. */
  function Written(s: State, v: Value): (r: State)
    requires s.Valid()
    ensures r.Valid() && r.SameFrame(s)
    ensures r.attributes == s.attributes[s.attribute := v]
    ensures s.rowExists ==> r.stored == s.stored[s.attribute := v]
    ensures !s.rowExists ==> r.stored == s.stored
  {
    SaveAttribute(s.(attributes := s.attributes[s.attribute := v]), s.attribute)
  }

  /** remove(): the attribute receives the timestamp and is persisted alone;
      on a detached behaviour the owner is null and the call throws. */
  function Removed(s: State, timestamp: int): (r: Result<State, CallError>)
    requires s.Valid()
    ensures r.Failure? <==> !s.attached
    ensures r.Failure? ==> r.error == OwnerIsNull
    ensures r.Success? ==> r.value.Valid() && r.value.SameFrame(s)
    ensures r.Success? ==> r.value.DeleteTime() == Some(timestamp)
    ensures r.Success? ==> r.value.attributes.Keys == s.attributes.Keys
    ensures r.Success? ==> forall a :: a in s.attributes && a != s.attribute ==> r.value.attributes[a] == s.attributes[a]
    ensures r.Success? && s.rowExists ==> r.value.stored == s.stored[s.attribute := Int(timestamp)]
    ensures r.Success? && !s.rowExists ==> r.value.stored == s.stored
  {
    if !s.attached then Failure(OwnerIsNull) else Success(Written(s, Int(timestamp)))
  }

  /** restore(): the attribute becomes null and is persisted alone; on a
      detached behaviour the call throws. */
  function Restored(s: State): (r: Result<State, CallError>)
    requires s.Valid()
    ensures r.Failure? <==> !s.attached
    ensures r.Failure? ==> r.error == OwnerIsNull
    ensures r.Success? ==> r.value.Valid() && r.value.SameFrame(s)
    ensures r.Success? ==> r.value.attributes == s.attributes[s.attribute := Null]
    ensures r.Success? ==> r.value.DeleteTime() == None && (r.value.rowExists ==> r.value.IsLive())
    ensures r.Success? ==> r.value.attributes.Keys == s.attributes.Keys
    ensures r.Success? ==> forall a :: a in s.attributes && a != s.attribute ==> r.value.attributes[a] == s.attributes[a]
    ensures r.Success? && s.rowExists ==> r.value.stored == s.stored[s.attribute := Null]
    ensures r.Success? && !s.rowExists ==> r.value.stored == s.stored
  {
    if !s.attached then Failure(OwnerIsNull) else Success(Written(s, Null))
  }

  /** doDeleteTimestamp($event): with safe mode off nothing happens; with it
      on the record is soft-deleted (through remove(), which throws on a
      detached behaviour) and the event is marked invalid. The second
      component is the event's `isValid` afterwards. */
  function DoDeleteTimestampEffect(s: State, timestamp: int, isValid: bool): (r: Result<(State, bool), CallError>)
    requires s.Valid()
    ensures r.Failure? <==> s.safeMode && !s.attached
    ensures r.Success? ==> r.value.0.Valid() && r.value.0.SameFrame(s)
    ensures !s.safeMode ==> r == Success((s, isValid))
    ensures s.safeMode && s.attached ==> r == Success((Removed(s, timestamp).value, false))
  {
    if !s.safeMode then Success((s, isValid))
    else match Removed(s, timestamp)
      case Success(removed) => Success((removed, false))
      case Failure(e) => Failure(e)
  }

  /** `$owner->delete()`: the before-delete handler runs when the behaviour is
      attached; the row is removed unless the handler cancelled. A handler
      only runs while attached, so it never throws here. */
  function DeleteEffect(s: State, timestamp: int): (r: (State, DeleteResult))
    requires s.Valid()
    ensures r.0.Valid()
    ensures r.0.attribute == s.attribute && r.0.safeMode == s.safeMode && r.0.attached == s.attached
    ensures r.1.Cancelled? <==> s.attached && s.safeMode
    ensures r.0.rowExists <==> s.rowExists && s.attached && s.safeMode
    ensures r.1.Deleted? ==> r.1.count == (if s.rowExists then 1 else 0)
    ensures r.1.Deleted? ==> r.0 == s.(rowExists := false)
  {
    var (handled, isValid) :=
      if s.attached && BeforeDelete in Events() then
        match Events()[BeforeDelete]
        case DoDeleteTimestamp => DoDeleteTimestampEffect(s, timestamp, true).value
      else (s, true);
    if !isValid then (handled, Cancelled)
    else (handled.(rowExists := false), Deleted(if s.rowExists then 1 else 0))
  }

  /** forceDelete(): detach, then delete the owner as normal; the result of
      delete() is dropped. On a behaviour already detached the stored owner
      is null and the call throws. */
  function ForceDeleteEffect(s: State, timestamp: int): (r: Result<State, CallError>)
    requires s.Valid()
    ensures r.Failure? <==> !s.attached
    ensures r.Failure? ==> r.error == OwnerIsNull
    ensures r.Success? ==> r.value.Valid() && !r.value.rowExists && !r.value.attached
    ensures r.Success? ==> r.value.attribute == s.attribute && r.value.safeMode == s.safeMode
    ensures r.Success? ==> r.value.attributes == s.attributes && r.value.stored == s.stored
  {
    if !s.attached then Failure(OwnerIsNull)
    else Success(DeleteEffect(s.(attached := false), timestamp).0)
  }

  /** The outcome of a method that may throw, with the value it leaves
      behind when it does not. */
  function Settled<T>(o: Outcome<CallError>, v: T): Result<T, CallError> {
    if o.Pass? then Success(v) else Failure(o.error)
  }

  /** A public call on the owner or the behaviour. */
  datatype Op = Delete(timestamp: int) | Remove(timestamp: int) | Restore | ForceDelete(timestamp: int)

  /** One call: delete() goes to the owner, which always has its row to
      delete or not; the others go through the behaviour and throw once it
      is detached. */
  function Apply(s: State, op: Op): (r: Result<State, CallError>)
    requires s.Valid()
    ensures r.Failure? <==> !s.attached && !op.Delete?
    ensures r.Success? ==> r.value.Valid() && r.value.attribute == s.attribute && r.value.safeMode == s.safeMode
  {
    match op
    case Delete(t) => Success(DeleteEffect(s, t).0)
    case Remove(t) => Removed(s, t)
    case Restore => Restored(s)
    case ForceDelete(t) => ForceDeleteEffect(s, t)
  }

  /** Where a sequence of calls ends: the last state, and the error of the
      call that threw, if one did. */
  datatype Ending = Ending(state: State, error: Option<CallError>)

  /** The calls in order, up to the first one that throws; a call that
      throws changes nothing. */
  function Run(s: State, ops: seq<Op>): (r: Ending)
    requires s.Valid()
    ensures r.state.Valid()
    decreases |ops|
  {
    if ops == [] then Ending(s, None)
    else match Apply(s, ops[0])
      case Success(next) => Run(next, ops[1..])
      case Failure(e) => Ending(s, Some(e))
  }

  /** With safe mode on and the behaviour attached, delete() keeps the row,
      stamps the attribute with the timestamp and is cancelled. */
  lemma SafeDeleteIsSoftDelete(s: State, timestamp: int)
    requires s.Valid() && s.attached && s.safeMode
    ensures DeleteEffect(s, timestamp) == (Removed(s, timestamp).value, Cancelled)
    ensures DeleteEffect(s, timestamp).0.rowExists == s.rowExists
    ensures DeleteEffect(s, timestamp).0.DeleteTime() == Some(timestamp)
  {
  }

  /** With safe mode off, the handler changes nothing and the row is deleted. */
  lemma UnsafeDeleteIsPhysical(s: State, timestamp: int)
    requires s.Valid() && !s.safeMode
    ensures DeleteEffect(s, timestamp).0 == s.(rowExists := false)
    ensures DeleteEffect(s, timestamp).1 == Deleted(if s.rowExists then 1 else 0)
  {
  }

  /** restore() is idempotent: a second call that does not throw changes
      nothing. */
  lemma RestoreIdempotent(s: State)
    requires s.Valid()
    ensures Restored(s).Success? ==> Restored(Restored(s).value) == Restored(s)
  {
    if s.attached {
      var r := Restored(s).value;
      assert r.attributes[s.attribute := Null] == r.attributes;
      assert r.rowExists ==> r.stored[s.attribute := Null] == r.stored;
    }
  }

  /** remove() followed by restore() is the same as restore() alone: every
      value but the attribute is as it was, and a live record is live again. */
  lemma RestoreUndoesRemove(s: State, timestamp: int)
    requires s.Valid()
    ensures Removed(s, timestamp).Success? ==> Restored(Removed(s, timestamp).value) == Restored(s)
    ensures Removed(s, timestamp).Success? && s.IsLive() ==> Restored(Removed(s, timestamp).value).value.IsLive()
  {
    if s.attached {
      var a := s.attribute;
      assert s.attributes[a := Int(timestamp)][a := Null] == s.attributes[a := Null];
      assert s.stored[a := Int(timestamp)][a := Null] == s.stored[a := Null];
    }
  }

  /** On a live record whose stored attribute is null, remove() then
      restore() leaves the record exactly as it was. */
  lemma RemoveRestoreRoundTrip(s: State, timestamp: int)
    requires s.Valid() && s.IsLive() && s.attribute in s.stored && s.stored[s.attribute] == Null
    ensures Removed(s, timestamp).Success? ==> Restored(Removed(s, timestamp).value) == Success(s)
  {
    RestoreUndoesRemove(s, timestamp);
    assert s.attributes[s.attribute := Null] == s.attributes;
    assert s.stored[s.attribute := Null] == s.stored;
  }

  /** forceDelete() removes the row whatever `safeMode` is. */
  lemma ForceDeleteIgnoresSafeMode(s: State, timestamp: int)
    requires s.Valid()
    ensures ForceDeleteEffect(s, timestamp).Success? <==> ForceDeleteEffect(s.(safeMode := !s.safeMode), timestamp).Success?
    ensures ForceDeleteEffect(s, timestamp).Success? ==>
              ForceDeleteEffect(s, timestamp).value ==
                ForceDeleteEffect(s.(safeMode := !s.safeMode), timestamp).value.(safeMode := s.safeMode)
  {
  }

  /** Under safe mode the only way to truly delete a record is forceDelete():
      any sequence of other calls runs without throwing and leaves the row in
      place and the behaviour attached. */
  lemma {:induction false} OnlyForceDeleteDeletes(s: State, ops: seq<Op>)
    requires s.Valid() && s.attached && s.safeMode && s.rowExists
    requires forall i :: 0 <= i < |ops| ==> !ops[i].ForceDelete?
    ensures Run(s, ops).error == None
    ensures Run(s, ops).state.rowExists && Run(s, ops).state.attached
    decreases |ops|
  {
    if ops != [] {
      var next := Apply(s, ops[0]).value;
      assert next.rowExists && next.attached;
      OnlyForceDeleteDeletes(next, ops[1..]);
    }
  }

  /** forceDelete() is final: it succeeds on an attached behaviour, and
      after it the row stays gone and the behaviour detached whatever comes
      next; every later call but delete() throws. */
  lemma ForceDeleteIsFinal(s: State, timestamp: int, ops: seq<Op>)
    requires s.Valid() && s.attached
    ensures ForceDeleteEffect(s, timestamp).Success?
    ensures !Run(ForceDeleteEffect(s, timestamp).value, ops).state.rowExists
    ensures !Run(ForceDeleteEffect(s, timestamp).value, ops).state.attached
    ensures Run(ForceDeleteEffect(s, timestamp).value, ops).error == None <==>
              forall i :: 0 <= i < |ops| ==> ops[i].Delete?
  {
    DetachedStaysGone(ForceDeleteEffect(s, timestamp).value, ops);
  }

  /** From a detached behaviour whose row is gone, delete() finds nothing
      to delete and every other call throws, so the row is never written
      again. */
  lemma {:induction false} DetachedStaysGone(s: State, ops: seq<Op>)
    requires s.Valid() && !s.attached && !s.rowExists
    ensures !Run(s, ops).state.rowExists && !Run(s, ops).state.attached
    ensures Run(s, ops).error == None <==> forall i :: 0 <= i < |ops| ==> ops[i].Delete?
    decreases |ops|
  {
    if ops != [] {
      if ops[0].Delete? {
        DetachedStaysGone(Apply(s, ops[0]).value, ops[1..]);
        assert forall i :: 1 <= i < |ops| ==> ops[1..][i - 1] == ops[i];
      }
    }
  }

  /** The owner: an ActiveRecord loaded from its row. */
  class Record {
    var rowExists: bool
    var attributes: map<string, Value>
    var stored: map<string, Value>

    constructor (row: map<string, Value>)
      ensures rowExists && attributes == row && stored == row
    {
      rowExists := true;
      attributes := row;
      stored := row;
    }

    /** save(false, [name]): update only that column of the row. */
    method Save(name: string)
      requires name in attributes
      modifies this`stored
      ensures stored == if rowExists then old(stored)[name := attributes[name]] else old(stored)
    {
      if rowExists {
        stored := stored[name := attributes[name]];
      }
    }

    /** The physical DELETE of the row. */
    method DeleteRow() returns (count: nat)
      modifies this`rowExists
      ensures !rowExists && count == if old(rowExists) then 1 else 0
    {
      count := if rowExists then 1 else 0;
      rowExists := false;
    }
  }

  /** The event object handed to before-delete handlers. */
  class ModelEvent {
    var isValid: bool

    constructor ()
      ensures isValid
    {
      isValid := true;
    }
  }

  /** The behaviour. `owner` is the record it was attached to; `attached`
      says whether the behaviour's own `owner` property still points to it
      or detach() has set that to null. */
  class SoftDelete {
    var attribute: string
    var safeMode: bool
    var attached: bool
    const owner: Record

    constructor (owner: Record)
      ensures this.owner == owner && attached
      ensures attribute == DefaultAttribute && safeMode == DefaultSafeMode
    {
      this.owner := owner;
      attribute := DefaultAttribute;
      safeMode := DefaultSafeMode;
      attached := true;
    }

    /** The abstract state the specification functions work on. */
    function Model(): State
      reads this, owner
    {
      State(attribute, safeMode, attached, owner.rowExists, owner.attributes, owner.stored)
    }

    predicate Valid()
      reads this, owner
    {
      Model().Valid()
    }

    /** The handler. Under safe mode it goes through Remove, so it throws
        when called directly on a detached behaviour. */
    method DoDeleteTimestamp(event: ModelEvent, timestamp: int) returns (o: Outcome<CallError>)
      requires Valid()
      modifies owner, event
      ensures Valid()
      ensures Settled(o, (Model(), event.isValid)) == DoDeleteTimestampEffect(old(Model()), timestamp, old(event.isValid))
      ensures o.Fail? ==> Model() == old(Model()) && event.isValid == old(event.isValid)
    {
      if !safeMode {
        return Pass;
      }
      o := Remove(timestamp);
      if o.Fail? {
        return;
      }
      event.isValid := false;
    }

    /** remove(). Once detached, `$this->owner` is null and writing the
        attribute through it throws before anything changes. */
    method Remove(timestamp: int) returns (o: Outcome<CallError>)
      requires Valid()
      modifies owner
      ensures Valid()
      ensures Settled(o, Model()) == Removed(old(Model()), timestamp)
      ensures o.Fail? ==> Model() == old(Model())
    {
      if !attached {
        return Fail(OwnerIsNull);
      }
      owner.attributes := owner.attributes[attribute := Int(timestamp)];
      owner.Save(attribute);
      o := Pass;
    }

    /** restore(), which throws like remove() once detached. */
    method Restore() returns (o: Outcome<CallError>)
      requires Valid()
      modifies owner
      ensures Valid()
      ensures Settled(o, Model()) == Restored(old(Model()))
      ensures o.Fail? ==> Model() == old(Model())
    {
      if !attached {
        return Fail(OwnerIsNull);
      }
      owner.attributes := owner.attributes[attribute := Null];
      owner.Save(attribute);
      o := Pass;
    }

    /** `$owner->delete()`, dispatching the before-delete event to this
        behaviour while it is attached. */
    method Delete(timestamp: int) returns (r: DeleteResult)
      requires Valid()
      modifies owner
      ensures Valid() && (Model(), r) == DeleteEffect(old(Model()), timestamp)
    {
      if attached && BeforeDelete in Events() {
        var event := new ModelEvent();
        match Events()[BeforeDelete]
        case DoDeleteTimestamp() => {
          var handled := DoDeleteTimestamp(event, timestamp);
        }
        if !event.isValid {
          return Cancelled;
        }
      }
      var count := owner.DeleteRow();
      r := Deleted(count);
    }

    /** forceDelete(): it returns nothing, and the result of the inner
        delete() is dropped. Once detached, the owner it takes is null and
        calling delete() on it throws. */
    method ForceDelete(timestamp: int) returns (o: Outcome<CallError>)
      requires Valid()
      modifies this, owner
      ensures Valid()
      ensures Settled(o, Model()) == ForceDeleteEffect(old(Model()), timestamp)
      ensures o.Fail? ==> Model() == old(Model())
    {
      if !attached {
        return Fail(OwnerIsNull);
      }
      attached := false;
      var dropped := Delete(timestamp);
      o := Pass;
    }
  }
}
