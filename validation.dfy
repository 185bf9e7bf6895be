/** `utils/validation.ts`: how `validate` turns the mapped field errors into one `next` call. */
module Validation {
  import opened Wrappers
  import opened Errors
  import Seqs

  /** The single call `validate` makes: `next()`, `next(msg)` or `next(entityErrorsObject)`. */
  datatype NextCall = NextNone | NextError(error: ErrorsWithStatus) | NextEntity(entity: ErrorsEntity)

  /** A field whose `msg` is an `ErrorsWithStatus` with a status other than 422. */
  predicate Forwardable(f: FieldError) {
    f.msg.WithStatus? && f.msg.error.status != UNPROCESSABLE_ENTITY
  }

  /** The first forwardable field, in the mapped object's iteration order. */
  function FirstForwardable(mapped: seq<FieldError>): (r: Option<nat>)
    ensures r.Some? ==> r.value < |mapped| && Forwardable(mapped[r.value])
    ensures r.Some? ==> forall j :: 0 <= j < r.value ==> !Forwardable(mapped[j])
    ensures r.None? <==> forall j :: 0 <= j < |mapped| ==> !Forwardable(mapped[j])
  {
    Seqs.FirstIndex(mapped, Forwardable)
  }

  /** The decision `validate` takes, as a function of the mapped errors. */
  function Decide(mapped: seq<FieldError>): (call: NextCall)
    ensures mapped == [] <==> call == NextNone
    ensures call.NextError? ==>
      exists k :: 0 <= k < |mapped| && Forwardable(mapped[k]) && call.error == mapped[k].msg.error &&
        forall j :: 0 <= j < k ==> !Forwardable(mapped[j])
    ensures call.NextEntity? <==> mapped != [] && forall k :: 0 <= k < |mapped| ==> !Forwardable(mapped[k])
    ensures call.NextEntity? ==> call.entity == NewErrorsEntity(mapped)
  {
    if mapped == [] then NextNone
    else match FirstForwardable(mapped)
      case Some(k) => NextError(mapped[k].msg.error)
      case None => NextEntity(NewErrorsEntity(mapped))
  }

  /** The loop of `validate`, after `validationResult(req)` has been mapped. */
  method Validate(mapped: seq<FieldError>) returns (call: NextCall)
    ensures mapped == [] <==> call == NextNone
    ensures call.NextError? ==>
      exists k :: 0 <= k < |mapped| && Forwardable(mapped[k]) && call.error == mapped[k].msg.error &&
        forall j :: 0 <= j < k ==> !Forwardable(mapped[j])
    ensures call.NextEntity? <==> mapped != [] && forall k :: 0 <= k < |mapped| ==> !Forwardable(mapped[k])
    ensures call.NextEntity? ==> call.entity == NewErrorsEntity(mapped)
    ensures call == Decide(mapped)
  {
    if mapped == [] {
      return NextNone;
    }
    var i := 0;
    while i < |mapped|
      invariant 0 <= i <= |mapped|
      invariant forall j :: 0 <= j < i ==> !Forwardable(mapped[j])
    {
      var msg := mapped[i].msg;
      if msg.WithStatus? && msg.error.status != UNPROCESSABLE_ENTITY {
        return NextError(msg.error);
      }
      i := i + 1;
    }
    return NextEntity(NewErrorsEntity(mapped));
  }

  /** With one failing field (each custom check below reports one): its own error, or a 422 wrapping it. */
  lemma DecideOneField(field: string, m: Msg)
    ensures Decide([FieldError(field, m)]) ==
      if m.WithStatus? && m.error.status != UNPROCESSABLE_ENTITY then NextError(m.error)
      else NextEntity(NewErrorsEntity([FieldError(field, m)]))
  {
  }

  /** A forwardable error in front of the list wins, whatever follows. */
  lemma DecideForwardableFirst(f: FieldError, rest: seq<FieldError>)
    requires Forwardable(f)
    ensures Decide([f] + rest) == NextError(f.msg.error)
  {
  }

  /** Fields that are not forwardable in front of the list are skipped. */
  lemma DecideSkipsNonForwardable(f: FieldError, rest: seq<FieldError>)
    requires !Forwardable(f) && rest != []
    requires exists k :: 0 <= k < |rest| && Forwardable(rest[k])
    ensures Decide([f] + rest) == Decide(rest)
  {
    var k :| 0 <= k < |rest| && Forwardable(rest[k]);
    assert ([f] + rest)[k + 1] == rest[k];
    var a := FirstForwardable([f] + rest);
    var b := FirstForwardable(rest);
    assert b.Some?;
    assert a.Some? by { assert Forwardable(([f] + rest)[k + 1]); }
    assert a.value == b.value + 1 by {
      assert ([f] + rest)[b.value + 1] == rest[b.value];
      assert forall j :: 1 <= j < |rest| + 1 ==> ([f] + rest)[j] == rest[j - 1];
    }
  }
}
