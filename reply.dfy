/**
 * Reply<T>: an Optional-like container that holds either a value or the
 * messages explaining why there is none. Every operation returns the reply it
 * was given or a new one; nothing is updated in place.
 */
module Replies {
  import opened Diagnostics

  /** java.util.Optional, and a Java reference that may be null. */
  datatype Option<T> = None | Some(value: T)

  /** The outcome of an accessor that throws NoSuchElementException. */
  datatype Result<T> = Ok(value: T) | Failure(error: string)

  /** Texts of the NoSuchElementException thrown by get() and messages(). */
  const NO_OBJECT: string := "No object present"
  const NO_MESSAGES: string := "There are no messages"

  /**
   * A present reply holds a value and no messages; an absent one holds no
   * value and a sequence of messages, which may be empty.
   */
  datatype Reply<T> = Present(value: T) | Absent(msgs: seq<Message>)

  // ---------------------------------------------------------------------
  // Construction

  /** empty(Collection): an absent reply carrying exactly the given messages. */
  function EmptyAll<T>(ms: seq<Message>): (r: Reply<T>)
    ensures !IsPresent(r) && GetMessages(r) == Ok(ms)
  {
    Absent(ms)
  }

  /** empty(message): an absent reply carrying exactly one message. */
  function EmptyOf<T>(m: Message): (r: Reply<T>)
    ensures !IsPresent(r) && GetMessages(r) == Ok([m])
  {
    EmptyAll([m])
  }

  /** empty(): an absent reply carrying only the default message. */
  function Empty<T>(): (r: Reply<T>)
    ensures !IsPresent(r) && GetMessages(r) == Ok([EMPTY_MESSAGE])
  {
    EmptyOf(EMPTY_MESSAGE)
  }

  /**
   * empty(first, second), the two-collection overload that Validator calls:
   * an absent reply carrying the first messages followed by the second.
   */
  function EmptyConcat<T>(first: seq<Message>, second: seq<Message>): (r: Reply<T>)
    ensures !IsPresent(r) && GetMessages(r) == Ok(first + second)
    ensures |r.msgs| == |first| + |second|
  {
    EmptyAll(first + second)
  }

  /** of(value): a present reply holding the value; it has no messages. */
  function Of<T>(v: T): (r: Reply<T>)
    ensures IsPresent(r) && Get(r) == Ok(v)
    ensures GetMessages(r) == Failure(NO_MESSAGES)
  {
    Present(v)
  }

  /** ofNullable(value): present for a non-null value, else empty(). */
  function OfNullable<T>(o: Option<T>): (r: Reply<T>)
    ensures IsPresent(r) <==> o.Some?
    ensures o.Some? ==> r == Of(o.value)
    ensures o.None? ==> r == Empty()
  {
    if o.None? then Absent([EMPTY_MESSAGE]) else Present(o.value)
  }

  /** ofOptional(optional, messages): of(v) for Some(v), else empty(messages). */
  function OfOptionalAll<T>(o: Option<T>, ms: seq<Message>): (r: Reply<T>)
    ensures IsPresent(r) <==> o.Some?
    ensures o.Some? ==> r == Of(o.value)
    ensures o.None? ==> r == EmptyAll(ms)
  {
    match o
    case Some(v) => Of(v)
    case None => EmptyAll(ms)
  }

  /** ofOptional(optional, message): as above with a one-message collection. */
  function OfOptionalOf<T>(o: Option<T>, m: Message): (r: Reply<T>)
    ensures o.Some? ==> r == Of(o.value)
    ensures o.None? ==> r == EmptyOf(m)
  {
    OfOptionalAll(o, [m])
  }

  /** ofOptional(optional): as above with the default message. */
  function OfOptional<T>(o: Option<T>): (r: Reply<T>)
    ensures o.Some? ==> r == Of(o.value)
    ensures o.None? ==> r == Empty()
  {
    OfOptionalOf(o, EMPTY_MESSAGE)
  }

  // ---------------------------------------------------------------------
  // Accessors

  /** isPresent(): whether the reply holds a value. */
  predicate IsPresent<T>(r: Reply<T>)
  {
    r.Present?
  }

  /** get(): the value, or the NoSuchElementException of an absent reply. */
  function Get<T>(r: Reply<T>): (g: Result<T>)
    ensures g.Ok? <==> IsPresent(r)
    ensures g.Ok? ==> r.value == g.value
    ensures g.Failure? ==> g.error == NO_OBJECT
  {
    match r
    case Present(v) => Ok(v)
    case Absent(_) => Failure(NO_OBJECT)
  }

  /** orElse(other): the value if present, otherwise `other`. */
  function OrElse<T>(r: Reply<T>, other: T): (v: T)
    ensures Get(r).Ok? ==> v == Get(r).value
    ensures Get(r).Failure? ==> v == other
  {
    match r
    case Present(x) => x
    case Absent(_) => other
  }

  /**
   * orElseGet(supplier): orElse applied to what the supplier gives. The
   * supplier is called even when a value is present, as the source does.
   */
  function OrElseGet<T>(r: Reply<T>, supplier: () -> T): (v: T)
    ensures Get(r).Ok? ==> v == Get(r).value
    ensures Get(r).Failure? ==> v == supplier()
  {
    OrElse(r, supplier())
  }

  /** messages(): the messages, or the NoSuchElementException of a present reply. */
  function GetMessages<T>(r: Reply<T>): (g: Result<seq<Message>>)
    ensures g.Ok? <==> !IsPresent(r)
    ensures g.Ok? ==> r.msgs == g.value
    ensures g.Failure? ==> g.error == NO_MESSAGES
  {
    match r
    case Present(_) => Failure(NO_MESSAGES)
    case Absent(ms) => Ok(ms)
  }

  /** messagesOrElse(other): the reply's own messages if absent, otherwise `other`. */
  function MessagesOrElse<T>(r: Reply<T>, other: seq<Message>): (ms: seq<Message>)
    ensures GetMessages(r).Ok? ==> ms == GetMessages(r).value
    ensures GetMessages(r).Failure? ==> ms == other
  {
    match r
    case Present(_) => other
    case Absent(own) => own
  }

  /** messagesOrElseGet(supplier): messagesOrElse of the (eagerly called) supplier. */
  function MessagesOrElseGet<T>(r: Reply<T>, supplier: () -> seq<Message>): (ms: seq<Message>)
    ensures GetMessages(r).Ok? ==> ms == GetMessages(r).value
    ensures GetMessages(r).Failure? ==> ms == supplier()
  {
    MessagesOrElse(r, supplier())
  }

  // ---------------------------------------------------------------------
  // Combinators

  /**
   * filter(predicate, messages): the same reply if it holds a value that
   * passes, otherwise empty(messages). An absent reply's own messages are
   * replaced, not kept.
   */
  function FilterAll<T>(r: Reply<T>, p: T -> bool, ms: seq<Message>): (f: Reply<T>)
    ensures IsPresent(f) <==> IsPresent(r) && p(r.value)
    ensures IsPresent(f) ==> f == r
    ensures !IsPresent(f) ==> f == EmptyAll(ms)
  {
    if !IsPresent(r) then EmptyAll(ms)
    else if p(r.value) then r
    else EmptyAll(ms)
  }

  /** filter(predicate, message): filter with a one-message collection. */
  function FilterOf<T>(r: Reply<T>, p: T -> bool, m: Message): (f: Reply<T>)
    ensures IsPresent(f) <==> IsPresent(r) && p(r.value)
    ensures IsPresent(f) ==> f == r
    ensures !IsPresent(f) ==> f == EmptyOf(m)
  {
    if !IsPresent(r) then EmptyOf(m)
    else if p(r.value) then r
    else EmptyOf(m)
  }

  /** filter(predicate): filter with the default message. */
  function FilterDefault<T>(r: Reply<T>, p: T -> bool): (f: Reply<T>)
    ensures IsPresent(f) <==> IsPresent(r) && p(r.value)
    ensures IsPresent(f) ==> f == r
    ensures !IsPresent(f) ==> f == Empty()
  {
    FilterOf(r, p, EMPTY_MESSAGE)
  }

  /**
   * map(mapper): an absent reply keeps its messages; a present one is mapped
   * and re-wrapped as by ofNullable, so a null result gives empty(). The
   * mapper's possibly-null result is an Option.
   */
  function Map<T, U>(r: Reply<T>, f: T -> Option<U>): (m: Reply<U>)
    ensures !IsPresent(r) ==> m == EmptyAll(r.msgs)
    ensures IsPresent(r) ==> m == OfNullable(f(r.value))
  {
    match r
    case Absent(ms) => EmptyAll(ms)
    case Present(v) => OfNullable(f(v))
  }

  /**
   * flatMap(mapper): an absent reply keeps its messages; a present one gives
   * whatever the mapper returns for its value.
   */
  function FlatMap<T, U>(r: Reply<T>, f: T -> Reply<U>): (m: Reply<U>)
    ensures !IsPresent(r) ==> m == EmptyAll(r.msgs)
    ensures IsPresent(r) ==> m == f(r.value)
  {
    match r
    case Absent(ms) => EmptyAll(ms)
    case Present(v) => f(v)
  }

  /** or(supplier): the same reply if present, otherwise the supplied reply. */
  function OrReply<T>(r: Reply<T>, supplier: () -> Reply<T>): (o: Reply<T>)
    ensures IsPresent(r) ==> o == r
    ensures !IsPresent(r) ==> o == supplier()
  {
    if IsPresent(r) then r else supplier()
  }

  /** or(other): the same reply if present, otherwise of(other); never absent. */
  function OrValue<T>(r: Reply<T>, other: T): (o: Reply<T>)
    ensures IsPresent(o)
    ensures IsPresent(r) ==> o == r
    ensures !IsPresent(r) ==> o == Of(other)
  {
    if IsPresent(r) then r else Of(other)
  }

  /** stream(): the value as a sequence of one element, or no element. */
  function Stream<T>(r: Reply<T>): (s: seq<T>)
    ensures |s| <= 1
    ensures |s| == 1 <==> IsPresent(r)
    ensures |s| == 1 ==> Get(r) == Ok(s[0])
  {
    if IsPresent(r) then [r.value] else []
  }
}
