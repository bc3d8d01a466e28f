// The retry category of an error on its way from the core or a handler to Prosody's retry logic
// (lib/errors.js, lib/state/bridge.js, lib/client.js, src/state/mod.rs, src/handler.rs).
module Errors {
  import opened Prelude

  datatype Category = Transient | Permanent

  // The error classes. `Custom` is any other class, such as TypeError or a class of the application.
  datatype ErrorClass =
    | BaseError
    | EventHandlerError
    | TransientError
    | PermanentError
    | TransientStateError
    | PermanentStateError
    | Custom(name: string, parent: ErrorClass)

  // A thrown value: an error object, or any other JavaScript value.
  datatype Thrown = JsError(class_: ErrorClass, message: string, cause: Option<Thrown>) | OtherValue

  function Parent(c: ErrorClass): Option<ErrorClass> {
    match c
    case BaseError => None
    case EventHandlerError => Some(BaseError)
    case TransientError => Some(EventHandlerError)
    case PermanentError => Some(EventHandlerError)
    case TransientStateError => Some(TransientError)
    case PermanentStateError => Some(PermanentError)
    case Custom(_, parent) => Some(parent)
  }

  function Depth(c: ErrorClass): nat {
    match c
    case BaseError => 0
    case EventHandlerError => 1
    case TransientError => 2
    case PermanentError => 2
    case TransientStateError => 3
    case PermanentStateError => 3
    case Custom(_, parent) => 1 + Depth(parent)
  }

  predicate Extends(c: ErrorClass, ancestor: ErrorClass)
    decreases Depth(c)
  {
    c == ancestor || (Parent(c).Some? && Extends(Parent(c).value, ancestor))
  }

  predicate InstanceOf(e: Thrown, c: ErrorClass) {
    e.JsError? && Extends(e.class_, c)
  }

  // ----- Decorators -----

  datatype Decorator = Decorator(category: Category, exceptionTypes: seq<ErrorClass>)

  function WrapperClass(category: Category): ErrorClass {
    if category.Permanent? then PermanentError else TransientError
  }

  predicate Matches(d: Decorator, e: Thrown) {
    exists i :: 0 <= i < |d.exceptionTypes| && InstanceOf(e, d.exceptionTypes[i])
  }

  function HandleError(d: Decorator, e: Thrown): Thrown {
    if Matches(d, e) && e.JsError? then JsError(WrapperClass(d.category), e.message, Some(e)) else e
  }

  // What leaves a method with a stack of decorators, written outermost first.
  function Rethrown(stack: seq<Decorator>, e: Thrown): Thrown {
    if stack == [] then e else HandleError(stack[0], Rethrown(stack[1..], e))
  }

  // Decorator `i` of the stack matches the error that reaches it.
  predicate MatchesAt(stack: seq<Decorator>, i: nat, e: Thrown)
    requires i < |stack|
  {
    Matches(stack[i], Rethrown(stack[i + 1..], e))
  }

  // Decorator `i` matches, and no decorator outside it does.
  predicate OutermostMatch(stack: seq<Decorator>, i: nat, e: Thrown) {
    && i < |stack|
    && MatchesAt(stack, i, e)
    && forall j: nat :: j < i ==> !MatchesAt(stack, j, e)
  }

  predicate NoMatch(stack: seq<Decorator>, e: Thrown) {
    forall i: nat :: i < |stack| ==> !MatchesAt(stack, i, e)
  }

  // ----- Classification -----

  // The `isPermanent` getter. The base class throws, which a result of None stands for.
  function IsPermanentGetter(c: ErrorClass): Option<bool>
    requires Extends(c, EventHandlerError)
  {
    match c
    case PermanentError => Some(true)
    case PermanentStateError => Some(true)
    case TransientError => Some(false)
    case TransientStateError => Some(false)
    case EventHandlerError => None
    case BaseError => assert false; None
    case Custom(_, parent) => IsPermanentGetter(parent)
  }

  // The `isPermanent` callback of the client.
  function IsPermanent(e: Thrown): bool {
    InstanceOf(e, EventHandlerError) && IsPermanentGetter(e.class_) == Some(true)
  }

  // The category the retry logic sees. The call into JavaScript may itself fail.
  function RetryCategory(e: Thrown, callFails: bool): Category {
    if callFails then Transient
    else if IsPermanent(e) then Permanent
    else Transient
  }

  // ----- State errors -----

  function Token(category: Category): string {
    if category.Permanent? then "permanent" else "transient"
  }

  // The native error for a core failure: the category is the message of its cause.
  function TaggedError(category: Category, message: string): Thrown {
    JsError(BaseError, message, Some(JsError(BaseError, Token(category), None)))
  }

  function Tag(e: Thrown): Option<Category> {
    if !e.JsError? || e.cause.None? || !e.cause.value.JsError? then None
    else if e.cause.value.message == "permanent" then Some(Permanent)
    else if e.cause.value.message == "transient" then Some(Transient)
    else None
  }

  function StateClass(category: Category): ErrorClass {
    if category.Permanent? then PermanentStateError else TransientStateError
  }

  function ToStateError(e: Thrown): Thrown {
    match Tag(e)
    case None => e
    case Some(category) => JsError(StateClass(category), e.message, Some(e))
  }

  // ----- Properties -----

  // The class tree: a state error is an error of its category, and both categories are handler errors.
  lemma ClassTree(c: ErrorClass, ancestor: ErrorClass)
    ensures match c
      case BaseError => Extends(c, ancestor) <==> ancestor == BaseError
      case EventHandlerError => Extends(c, ancestor) <==> ancestor in {BaseError, EventHandlerError}
      case TransientError => Extends(c, ancestor) <==> ancestor in {BaseError, EventHandlerError, TransientError}
      case PermanentError => Extends(c, ancestor) <==> ancestor in {BaseError, EventHandlerError, PermanentError}
      case TransientStateError =>
        Extends(c, ancestor) <==> ancestor in {BaseError, EventHandlerError, TransientError, TransientStateError}
      case PermanentStateError =>
        Extends(c, ancestor) <==> ancestor in {BaseError, EventHandlerError, PermanentError, PermanentStateError}
      case Custom(_, parent) => Extends(c, ancestor) <==> ancestor == c || Extends(parent, ancestor)
  {
    assert forall a :: Extends(BaseError, a) <==> a == BaseError;
    assert forall a :: Extends(EventHandlerError, a) <==> a in {BaseError, EventHandlerError};
    assert forall a :: Extends(TransientError, a) <==> a in {BaseError, EventHandlerError, TransientError};
    assert forall a :: Extends(PermanentError, a) <==> a in {BaseError, EventHandlerError, PermanentError};
  }

  // An error is permanent exactly when it is a PermanentError and the classification works. So every other
  // error, a plain one or one whose getter throws, is transient.
  lemma CategoryIsDecided(e: Thrown, callFails: bool)
    ensures RetryCategory(e, callFails) == Permanent <==> !callFails && InstanceOf(e, PermanentError)
  {
    if e.JsError? {
      GetterFollowsClass(e.class_);
    }
  }

  lemma {:induction false} GetterFollowsClass(c: ErrorClass)
    ensures Extends(c, PermanentError) ==> Extends(c, EventHandlerError)
    ensures Extends(c, EventHandlerError) ==> (IsPermanentGetter(c) == Some(true) <==> Extends(c, PermanentError))
  {
    ClassTree(c, PermanentError);
    ClassTree(c, EventHandlerError);
    if c.Custom? {
      GetterFollowsClass(c.parent);
    }
  }

  // Dropping the outermost decorator shifts the matches by one.
  lemma InnerMatches(stack: seq<Decorator>, i: nat, e: Thrown)
    requires i + 1 < |stack|
    ensures MatchesAt(stack[1..], i, e) == MatchesAt(stack, i + 1, e)
  {
    assert stack[1..][i + 1..] == stack[i + 2..];
  }

  // A decorator wraps the instances of each class it lists in an error of its category, with their message, and
  // lets everything else through.
  lemma DecoratorWrapsListed(d: Decorator, e: Thrown)
    ensures forall c :: c in d.exceptionTypes && InstanceOf(e, c) ==>
      HandleError(d, e)
      == JsError(if d.category == Permanent then PermanentError else TransientError, e.message, Some(e))
    ensures (forall c :: c in d.exceptionTypes ==> !InstanceOf(e, c)) ==> HandleError(d, e) == e
  {
  }

  // A decorator that matches gives its category.
  lemma MatchDecides(d: Decorator, e: Thrown)
    requires Matches(d, e)
    ensures RetryCategory(HandleError(d, e), false) == d.category
    ensures HandleError(d, e).JsError? && HandleError(d, e).cause == Some(e)
  {
    assert Extends(WrapperClass(d.category), EventHandlerError);
  }

  lemma {:induction false} MessageSurvives(stack: seq<Decorator>, e: Thrown)
    ensures e.JsError? ==> Rethrown(stack, e).JsError? && Rethrown(stack, e).message == e.message
    ensures e.OtherValue? ==> Rethrown(stack, e) == e
  {
    if stack != [] {
      MessageSurvives(stack[1..], e);
    }
  }

  // The outermost matching decorator decides the category. Without one the error leaves unchanged and
  // keeps its own category, which is permanent exactly for a PermanentError. The message always survives.
  lemma {:induction false} OutermostMatchDecides(stack: seq<Decorator>, e: Thrown)
    ensures forall i: nat :: OutermostMatch(stack, i, e)
                         ==> RetryCategory(Rethrown(stack, e), false) == stack[i].category
    ensures NoMatch(stack, e) ==> Rethrown(stack, e) == e
    ensures NoMatch(stack, e) ==>
      (RetryCategory(Rethrown(stack, e), false) == Permanent <==> InstanceOf(e, PermanentError))
    ensures e.JsError? ==> Rethrown(stack, e).JsError? && Rethrown(stack, e).message == e.message
    ensures e.OtherValue? ==> Rethrown(stack, e) == e
  {
    MessageSurvives(stack, e);
    CategoryIsDecided(e, false);
    if stack != [] {
      var inner := stack[1..];
      OutermostMatchDecides(inner, e);
      forall i: nat | i < |inner| {
        InnerMatches(stack, i, e);
      }
      if MatchesAt(stack, 0, e) {
        MatchDecides(stack[0], Rethrown(inner, e));
      } else {
        forall i: nat | OutermostMatch(stack, i, e)
          ensures RetryCategory(Rethrown(stack, e), false) == stack[i].category
        {
          assert OutermostMatch(inner, i - 1, e);
        }
      }
    }
  }

  ghost predicate CauseSays(e: Thrown, message: string) {
    e.JsError? && e.cause.Some? && e.cause.value.JsError? && e.cause.value.message == message
  }

  // A native error whose cause says its category becomes the state error of that category, with its message and
  // itself as the cause. Any other value passes through.
  lemma TagSelectsClass(e: Thrown)
    ensures CauseSays(e, "permanent") ==> ToStateError(e) == JsError(PermanentStateError, e.message, Some(e))
    ensures CauseSays(e, "transient") ==> ToStateError(e) == JsError(TransientStateError, e.message, Some(e))
    ensures !CauseSays(e, "permanent") && !CauseSays(e, "transient") ==> ToStateError(e) == e
  {
  }

  // A core failure keeps its category through the native tag, the typed state error, any decorators that
  // do not match it, and the classification callback. A failed classification is transient.
  lemma CoreCategorySurvives(category: Category, message: string, stack: seq<Decorator>, callFails: bool)
    requires NoMatch(stack, ToStateError(TaggedError(category, message)))
    ensures RetryCategory(Rethrown(stack, ToStateError(TaggedError(category, message))), callFails)
         == if callFails then Transient else category
    ensures ToStateError(TaggedError(category, message)).JsError?
    ensures ToStateError(TaggedError(category, message)).message == message
  {
    OutermostMatchDecides(stack, ToStateError(TaggedError(category, message)));
    assert Extends(PermanentStateError, EventHandlerError);
    assert Extends(TransientStateError, EventHandlerError);
  }

  // Converting twice is converting once, unless the human message is itself a category token: then the
  // second conversion takes that message for a tag, and wraps the state error again.
  lemma ConvertingTwice(e: Thrown)
    ensures ToStateError(ToStateError(e)) == ToStateError(e)
       <==> Tag(e).None? || (e.message != "permanent" && e.message != "transient")
    ensures e == TaggedError(Transient, "permanent") ==> Tag(ToStateError(e)) == Some(Permanent)
  {
  }
}
