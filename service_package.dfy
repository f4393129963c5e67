/**
 * ServicePackage<T>: the terminal adapter that turns a Reply and a fallback
 * into a value that is always there plus the messages explaining a missing
 * value (none when the reply was present).
 */
module ServicePackages {
  import opened Diagnostics
  import opened Replies

  datatype ServicePackage<T> = ServicePackage(value: T, messages: seq<Message>)

  /**
   * ServicePackage.of(reply, start): the reply's value and no messages if it
   * is present, otherwise start and the reply's messages.
   */
  function Of<T>(r: Reply<T>, start: T): (p: ServicePackage<T>)
    ensures Get(r).Ok? ==> p == ServicePackage(Get(r).value, [])
    ensures GetMessages(r).Ok? ==> p == ServicePackage(start, GetMessages(r).value)
  {
    ServicePackage(OrElse(r, start), MessagesOrElse(r, []))
  }

  /**
   * ServicePackage.ofOptional(reply, start) for a reply of an optional: the
   * inner value if the reply holds Some, start if it holds None or is absent;
   * the messages are the reply's own when absent and none otherwise.
   */
  function OfOptional<T>(r: Reply<Option<T>>, start: T): (p: ServicePackage<T>)
    ensures Get(r) == Ok(Some(p.value)) || p.value == start
    ensures Get(r).Ok? && Get(r).value.Some? ==> p == ServicePackage(Get(r).value.value, [])
    ensures Get(r).Ok? && Get(r).value.None? ==> p == ServicePackage(start, [])
    ensures GetMessages(r).Ok? ==> p == ServicePackage(start, GetMessages(r).value)
  {
    var inner := OrElse(r, None);
    ServicePackage(if inner.Some? then inner.value else start, MessagesOrElse(r, []))
  }

  /** A package has messages only if its reply was absent with those messages. */
  lemma MessagesOnlyFromAbsent<T>(r: Reply<T>, start: T)
    ensures Of(r, start).messages != [] ==> GetMessages(r) == Ok(Of(r, start).messages)
  {
  }

  /** Packaging a reply of Some-wrapped values is packaging the reply itself. */
  lemma OfOptionalOfSome<T>(r: Reply<T>, start: T)
    ensures OfOptional(Map(r, x => Some(Some(x))), start) == Of(r, start)
  {
  }

  /**
   * ofOptional's value collapses both kinds of absence: it is the value of
   * packaging the reply flattened by ofNullable. Its messages differ for a
   * present None, which ofOptional reports with no message at all.
   */
  lemma OfOptionalFlattens<T>(r: Reply<Option<T>>, start: T)
    ensures OfOptional(r, start).value == Of(FlatMap(r, o => OfNullable(o)), start).value
    ensures Get(r) == Ok(None) ==> OfOptional(r, start).messages == []
    ensures Get(r) == Ok(None) ==> Of(FlatMap(r, o => OfNullable(o)), start).messages == [EMPTY_MESSAGE]
  {
  }

  /** Packaging of(v) gives v whatever the fallback; packaging empty(ms) gives the fallback and ms. */
  lemma OfRoundTrip<T>(v: T, ms: seq<Message>, start: T)
    ensures Of(Replies.Of(v), start) == ServicePackage(v, [])
    ensures Of(EmptyAll<T>(ms), start) == ServicePackage(start, ms)
  {
  }
}
