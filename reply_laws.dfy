/**
 * Laws relating the Reply operations to one another: the accessors agree on
 * presence, filter composes, map and flatMap obey the functor and monad laws,
 * and the overloads that take fewer arguments are the general ones with the
 * default message filled in.
 */
module ReplyLaws {
  import opened Diagnostics
  import opened Replies

  /** flatMap on the Option standing for a nullable result. */
  function OptionBind<T, U>(o: Option<T>, g: T -> Option<U>): (b: Option<U>)
    ensures o.None? ==> b.None?
    ensures o.Some? ==> b == g(o.value)
  {
    match o
    case None => None
    case Some(x) => g(x)
  }

  // ---------------------------------------------------------------------
  // Presence

  /**
   * get() succeeds, messages() fails and stream() has an element exactly when
   * isPresent() holds, and they agree on the value.
   */
  lemma PresenceViews<T>(r: Reply<T>)
    ensures IsPresent(r) <==> Get(r).Ok?
    ensures IsPresent(r) <==> GetMessages(r).Failure?
    ensures IsPresent(r) <==> Stream(r) != []
    ensures IsPresent(r) ==> Stream(r) == [Get(r).value]
  {
  }

  /** Every reply is of(v) for its value or empty(ms) for its messages. */
  lemma ReplyIsOfOrEmpty<T>(r: Reply<T>)
    ensures Get(r).Ok? ==> r == Of(Get(r).value)
    ensures GetMessages(r).Ok? ==> r == EmptyAll(GetMessages(r).value)
  {
  }

  /** orElse(o) is the stream's one element, or o when the stream is empty. */
  lemma OrElseViaStream<T>(r: Reply<T>, other: T)
    ensures OrElse(r, other) == if Stream(r) == [] then other else Stream(r)[0]
  {
  }

  /** messagesOrElse(ms) on a present reply always gives ms; on an absent one never depends on ms. */
  lemma MessagesOrElseIgnoresFallback<T>(r: Reply<T>, a: seq<Message>, b: seq<Message>)
    ensures IsPresent(r) ==> MessagesOrElse(r, a) == a
    ensures !IsPresent(r) ==> MessagesOrElse(r, a) == MessagesOrElse(r, b)
  {
  }

  // ---------------------------------------------------------------------
  // Construction

  /** ofNullable and the one-argument ofOptional build the same reply. */
  lemma OfNullableIsOfOptional<T>(o: Option<T>)
    ensures OfNullable(o) == OfOptional(o)
  {
  }

  /** A reply built by ofOptional gives its optional back through stream(). */
  lemma OfOptionalStream<T>(o: Option<T>, ms: seq<Message>)
    ensures Stream(OfOptionalAll(o, ms)) == if o.Some? then [o.value] else []
    ensures !IsPresent(OfOptionalAll(o, ms)) ==> GetMessages(OfOptionalAll(o, ms)) == Ok(ms)
  {
  }

  /** The two-collection empty with an empty side is the one-collection empty. */
  lemma EmptyConcatUnits<T>(ms: seq<Message>)
    ensures EmptyConcat<T>(ms, []) == EmptyAll(ms)
    ensures EmptyConcat<T>([], ms) == EmptyAll(ms)
  {
    assert ms + [] == ms;
    assert [] + ms == ms;
  }

  // ---------------------------------------------------------------------
  // filter

  /** The message and default overloads are filter with a fixed collection. */
  lemma FilterOverloads<T>(r: Reply<T>, p: T -> bool, m: Message)
    ensures FilterOf(r, p, m) == FilterAll(r, p, [m])
    ensures FilterDefault(r, p) == FilterAll(r, p, [EMPTY_MESSAGE])
  {
  }

  /** Filtering twice is filtering once by the conjunction. */
  lemma FilterConjunction<T>(r: Reply<T>, p: T -> bool, q: T -> bool, ms: seq<Message>)
    ensures FilterAll(FilterAll(r, p, ms), q, ms) == FilterAll(r, x => p(x) && q(x), ms)
  {
  }

  /** Filtering again by the same predicate and messages changes nothing. */
  lemma FilterIdempotent<T>(r: Reply<T>, p: T -> bool, ms: seq<Message>)
    ensures FilterAll(FilterAll(r, p, ms), p, ms) == FilterAll(r, p, ms)
  {
  }

  /** An always-true filter keeps a present reply but still resets an absent one's messages. */
  lemma FilterTrue<T>(r: Reply<T>, ms: seq<Message>)
    ensures IsPresent(r) ==> FilterAll(r, _ => true, ms) == r
    ensures !IsPresent(r) ==> FilterAll(r, _ => true, ms) == EmptyAll(ms)
  {
  }

  // ---------------------------------------------------------------------
  // map and flatMap

  /** Functor identity: mapping by the identity changes nothing. */
  lemma MapIdentity<T>(r: Reply<T>)
    ensures Map(r, x => Some(x)) == r
  {
  }

  /**
   * Functor composition, with nullable results: mapping twice is mapping
   * once by the composed function, where a null after f stays null.
   */
  lemma MapComposition<T, U, V>(r: Reply<T>, f: T -> Option<U>, g: U -> Option<V>)
    ensures Map(Map(r, f), g) == Map(r, x => OptionBind(f(x), g))
  {
  }

  /** Functor composition for mappers that never return null. */
  lemma MapCompositionNonNull<T, U, V>(r: Reply<T>, f: T -> U, g: U -> V)
    ensures Map(Map(r, x => Some(f(x))), y => Some(g(y))) == Map(r, x => Some(g(f(x))))
  {
  }

  /** On of(v), map is ofNullable of the mapped value. */
  lemma MapOf<T, U>(v: T, f: T -> Option<U>)
    ensures Map(Of(v), f) == OfNullable(f(v))
  {
  }

  /** map is flatMap followed by ofNullable. */
  lemma MapIsFlatMap<T, U>(r: Reply<T>, f: T -> Option<U>)
    ensures Map(r, f) == FlatMap(r, x => OfNullable(f(x)))
  {
  }

  /** Monad left identity: of(v).flatMap(f) is f(v). */
  lemma FlatMapLeftIdentity<T, U>(v: T, f: T -> Reply<U>)
    ensures FlatMap(Of(v), f) == f(v)
  {
  }

  /** Monad right identity: flatMap by of changes nothing. */
  lemma FlatMapRightIdentity<T>(r: Reply<T>)
    ensures FlatMap(r, x => Of(x)) == r
  {
  }

  /** Monad associativity. */
  lemma FlatMapAssociative<T, U, V>(r: Reply<T>, f: T -> Reply<U>, g: U -> Reply<V>)
    ensures FlatMap(FlatMap(r, f), g) == FlatMap(r, x => FlatMap(f(x), g))
  {
  }

  /** map and flatMap pass an absent reply's messages through unchanged. */
  lemma AbsentPropagates<T, U>(ms: seq<Message>, f: T -> Option<U>, h: T -> Reply<U>)
    ensures GetMessages(Map(EmptyAll<T>(ms), f)) == Ok(ms)
    ensures GetMessages(FlatMap(EmptyAll<T>(ms), h)) == Ok(ms)
  {
  }

  // ---------------------------------------------------------------------
  // or

  /** or(value) is or(supplier) with a supplier of of(value). */
  lemma OrValueIsOrReply<T>(r: Reply<T>, other: T)
    ensures OrValue(r, other) == OrReply(r, () => Of(other))
  {
  }

  /** The value of or(o) is orElse(o). */
  lemma OrValueGet<T>(r: Reply<T>, other: T)
    ensures Get(OrValue(r, other)) == Ok(OrElse(r, other))
  {
  }

  /** or(supplier) is associative: the first present reply wins. */
  lemma OrReplyAssociative<T>(r: Reply<T>, s: Reply<T>, t: Reply<T>)
    ensures OrReply(OrReply(r, () => s), () => t) == OrReply(r, () => OrReply(s, () => t))
  {
  }
}
