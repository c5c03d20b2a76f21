/**
  `NapiAsyncTask`: the Resolve and Reject methods, which settle a promise or call a callback.  Each task
  records what it asks of the JS engine.
*/
module AsyncTask {
  import opened Wrappers

  type Value = nat

  // ---------------------------------------------------------------------------------------------
  // Settling

  /** What the JS engine is asked to do. */
  datatype Effect =
    | ResolveDeferred(deferred: nat, v: Value)
    | RejectDeferred(deferred: nat, v: Value)
    | CallFunction(ref: nat, arg0: Value, arg1: Value)
    | DeleteReference(ref: nat)

  /** The five settling methods, with their arguments; `noError` and the like are the fixed first arguments. */
  datatype Settle =
    | Resolve(v: Value)
    | ResolveWithNoError(v: Value)
    | Reject(error: Value)
    | ResolveWithCustomize(error: Value, v: Value)
    | RejectWithCustomize(error: Value, v: Value)

  /** The JS values that the methods make themselves. */
  datatype Fixed = Fixed(errorZero: Value, jsNull: Value, jsUndefined: Value)

  /** A promise is resolved with the value or rejected with the error. */
  function PromiseEffect(call: Settle, deferred: nat): Effect {
    match call
    case Resolve(v) => ResolveDeferred(deferred, v)
    case ResolveWithNoError(v) => ResolveDeferred(deferred, v)
    case Reject(error) => RejectDeferred(deferred, error)
    case ResolveWithCustomize(_, v) => ResolveDeferred(deferred, v)
    case RejectWithCustomize(error, _) => RejectDeferred(deferred, error)
  }

  /** A callback gets the error first and the value second. */
  function CallbackArguments(f: Fixed, call: Settle): (Value, Value) {
    match call
    case Resolve(v) => (f.errorZero, v)
    case ResolveWithNoError(v) => (f.jsNull, v)
    case Reject(error) => (error, f.jsUndefined)
    case ResolveWithCustomize(error, v) => (error, v)
    case RejectWithCustomize(error, v) => (error, v)
  }

  /** What settling asks of the engine, given what the task still holds. */
  function Effects(f: Fixed, call: Settle, deferred: Option<nat>, callbackRef: Option<nat>): seq<Effect> {
    (if deferred.Some? then [PromiseEffect(call, deferred.value)] else [])
    + (if callbackRef.Some? then
         var (a, b) := CallbackArguments(f, call);
         [CallFunction(callbackRef.value, a, b), DeleteReference(callbackRef.value)]
       else [])
  }

  /** The effects of a whole sequence of settling calls on one task. */
  function SettleAll(f: Fixed, calls: seq<Settle>, deferred: Option<nat>, callbackRef: Option<nat>): seq<Effect> {
    if calls == [] then []
    else Effects(f, calls[0], deferred, callbackRef) + SettleAll(f, calls[1..], None, None)
  }

  class NapiAsyncTask {
    var deferred: Option<nat>
    var callbackRef: Option<nat>
    var log: seq<Effect>
    const fixed: Fixed

    constructor WithDeferred(deferred: nat, fixed: Fixed)
      ensures this.deferred == Some(deferred) && callbackRef == None && log == [] && this.fixed == fixed
    {
      this.deferred, callbackRef, log, this.fixed := Some(deferred), None, [], fixed;
    }

    constructor WithCallback(callbackRef: nat, fixed: Fixed)
      ensures deferred == None && this.callbackRef == Some(callbackRef) && log == [] && this.fixed == fixed
    {
      deferred, this.callbackRef, log, this.fixed := None, Some(callbackRef), [], fixed;
    }

    method CallBack(arg0: Value, arg1: Value)
      requires callbackRef.Some?
      modifies this`callbackRef, this`log
      ensures callbackRef == None
      ensures log == old(log) + [CallFunction(old(callbackRef).value, arg0, arg1), DeleteReference(old(callbackRef).value)]
    {
      log := log + [CallFunction(callbackRef.value, arg0, arg1)];
      log := log + [DeleteReference(callbackRef.value)];
      callbackRef := None;
    }

    method Resolve(v: Value)
      modifies this`deferred, this`callbackRef, this`log
      ensures deferred == None && callbackRef == None
      ensures log == old(log) + Effects(fixed, Settle.Resolve(v), old(deferred), old(callbackRef))
      ensures old(deferred).Some? && old(callbackRef).None? ==> log == old(log) + [ResolveDeferred(old(deferred).value, v)]
      ensures old(deferred).None? && old(callbackRef).Some? ==>
                log == old(log) + [CallFunction(old(callbackRef).value, fixed.errorZero, v), DeleteReference(old(callbackRef).value)]
      ensures old(deferred).None? && old(callbackRef).None? ==> log == old(log)
    {
      if deferred.Some? {
        log := log + [ResolveDeferred(deferred.value, v)];
        deferred := None;
      }
      if callbackRef.Some? {
        CallBack(fixed.errorZero, v);
      }
    }

    method ResolveWithNoError(v: Value)
      modifies this`deferred, this`callbackRef, this`log
      ensures deferred == None && callbackRef == None
      ensures log == old(log) + Effects(fixed, Settle.ResolveWithNoError(v), old(deferred), old(callbackRef))
      ensures old(deferred).Some? && old(callbackRef).None? ==> log == old(log) + [ResolveDeferred(old(deferred).value, v)]
      ensures old(deferred).None? && old(callbackRef).Some? ==>
                log == old(log) + [CallFunction(old(callbackRef).value, fixed.jsNull, v), DeleteReference(old(callbackRef).value)]
      ensures old(deferred).None? && old(callbackRef).None? ==> log == old(log)
    {
      if deferred.Some? {
        log := log + [ResolveDeferred(deferred.value, v)];
        deferred := None;
      }
      if callbackRef.Some? {
        CallBack(fixed.jsNull, v);
      }
    }

    method Reject(error: Value)
      modifies this`deferred, this`callbackRef, this`log
      ensures deferred == None && callbackRef == None
      ensures log == old(log) + Effects(fixed, Settle.Reject(error), old(deferred), old(callbackRef))
      ensures old(deferred).Some? && old(callbackRef).None? ==> log == old(log) + [RejectDeferred(old(deferred).value, error)]
      ensures old(deferred).None? && old(callbackRef).Some? ==>
                log == old(log) + [CallFunction(old(callbackRef).value, error, fixed.jsUndefined), DeleteReference(old(callbackRef).value)]
      ensures old(deferred).None? && old(callbackRef).None? ==> log == old(log)
    {
      if deferred.Some? {
        log := log + [RejectDeferred(deferred.value, error)];
        deferred := None;
      }
      if callbackRef.Some? {
        CallBack(error, fixed.jsUndefined);
      }
    }

    method ResolveWithCustomize(error: Value, v: Value)
      modifies this`deferred, this`callbackRef, this`log
      ensures deferred == None && callbackRef == None
      ensures log == old(log) + Effects(fixed, Settle.ResolveWithCustomize(error, v), old(deferred), old(callbackRef))
      ensures old(deferred).Some? && old(callbackRef).None? ==> log == old(log) + [ResolveDeferred(old(deferred).value, v)]
      ensures old(deferred).None? && old(callbackRef).Some? ==>
                log == old(log) + [CallFunction(old(callbackRef).value, error, v), DeleteReference(old(callbackRef).value)]
      ensures old(deferred).None? && old(callbackRef).None? ==> log == old(log)
    {
      if deferred.Some? {
        log := log + [ResolveDeferred(deferred.value, v)];
        deferred := None;
      }
      if callbackRef.Some? {
        CallBack(error, v);
      }
    }

    method RejectWithCustomize(error: Value, v: Value)
      modifies this`deferred, this`callbackRef, this`log
      ensures deferred == None && callbackRef == None
      ensures log == old(log) + Effects(fixed, Settle.RejectWithCustomize(error, v), old(deferred), old(callbackRef))
      ensures old(deferred).Some? && old(callbackRef).None? ==> log == old(log) + [RejectDeferred(old(deferred).value, error)]
      ensures old(deferred).None? && old(callbackRef).Some? ==>
                log == old(log) + [CallFunction(old(callbackRef).value, error, v), DeleteReference(old(callbackRef).value)]
      ensures old(deferred).None? && old(callbackRef).None? ==> log == old(log)
    {
      if deferred.Some? {
        log := log + [RejectDeferred(deferred.value, error)];
        deferred := None;
      }
      if callbackRef.Some? {
        CallBack(error, v);
      }
    }

    /** Any sequence of calls. */
    method RunAll(calls: seq<Settle>)
      modifies this`deferred, this`callbackRef, this`log
      ensures log == old(log) + SettleAll(fixed, calls, old(deferred), old(callbackRef))
    {
      var i := 0;
      while i < |calls|
        invariant 0 <= i <= |calls|
        invariant log + SettleAll(fixed, calls[i..], deferred, callbackRef)
               == old(log) + SettleAll(fixed, calls, old(deferred), old(callbackRef))
      {
        assert calls[i..][1..] == calls[i + 1..];
        match calls[i] {
          case Resolve(v) => Resolve(v);
          case ResolveWithNoError(v) => ResolveWithNoError(v);
          case Reject(error) => Reject(error);
          case ResolveWithCustomize(error, v) => ResolveWithCustomize(error, v);
          case RejectWithCustomize(error, v) => RejectWithCustomize(error, v);
        }
        i := i + 1;
      }
    }
  }

  lemma {:induction false} NothingLeftToSettle(f: Fixed, calls: seq<Settle>)
    ensures SettleAll(f, calls, None, None) == []
  {
    if calls != [] { NothingLeftToSettle(f, calls[1..]); }
  }

  /**
    Whatever calls follow, only the first one has an effect: a promise is resolved or rejected once, with
    the first call's argument, or the callback is called once and its reference deleted right after.
  */
  lemma SettledByFirstCall(f: Fixed, calls: seq<Settle>, deferred: Option<nat>, callbackRef: Option<nat>)
    requires calls != []
    ensures SettleAll(f, calls, deferred, callbackRef) == Effects(f, calls[0], deferred, callbackRef)
  {
    NothingLeftToSettle(f, calls[1..]);
  }

  predicate IsResolve(call: Settle) {
    call.Resolve? || call.ResolveWithNoError? || call.ResolveWithCustomize?
  }

  /** A promise is settled once, by the first call: resolved with its value or rejected with its error. */
  lemma PromiseSettledOnce(f: Fixed, calls: seq<Settle>, deferred: nat)
    requires calls != []
    ensures SettleAll(f, calls, Some(deferred), None)
            == if IsResolve(calls[0]) then [ResolveDeferred(deferred, calls[0].v)] else [RejectDeferred(deferred, calls[0].error)]
  {
    SettledByFirstCall(f, calls, Some(deferred), None);
  }

  /**
    A callback is called once, by the first call, and its reference deleted right after: with the error
    first, a zero error or null where the caller gave none, and the value second, undefined after a
    rejection without one.
  */
  lemma CallbackCalledOnce(f: Fixed, calls: seq<Settle>, ref: nat)
    requires calls != []
    ensures var call := calls[0];
            var first := if call.Resolve? then f.errorZero else if call.ResolveWithNoError? then f.jsNull else call.error;
            var second := if call.Reject? then f.jsUndefined else call.v;
            SettleAll(f, calls, None, Some(ref)) == [CallFunction(ref, first, second), DeleteReference(ref)]
  {
    SettledByFirstCall(f, calls, None, Some(ref));
  }
}
