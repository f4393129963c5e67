# Reply, Validator and ServicePackage in Dafny

This project models the value layer of `com.akmade.util`, which reports missing values as data rather than exceptions. It has three parts.

- **Reply** (`reply.dfy`, module `Replies`) is an Optional-like container. It holds either a value (`Present`) or the messages that say why there is none (`Absent`). It has these parts:
  - the static constructors: `empty` ×3, `of`, `ofNullable`, `ofOptional` ×3;
  - the accessors: `get`, `orElse`, `orElseGet`, `messages`, `messagesOrElse`, `messagesOrElseGet`, `isPresent`;
  - the combinators: `filter` ×3, `map`, `flatMap`, `or` ×2, `stream`.

  Every Java overload gets a name of its own. `reply_laws.dfy` (module `ReplyLaws`) proves how these operations relate: the accessors agree on presence, the functor and monad laws hold, filters compose, and the short overloads are the general ones with the default message filled in.
- **Validator** is split in two, following the source.
  - `validation.dfy` (module `Validation`) is the pure half. A rule `ValidationItem(pred, msg)` maps a candidate to a one-rule reply (`makeValidation`). `validate` maps every rule, left-folds the replies with the source's binary combiner (`Stream.reduce`), and falls back to `empty()` when there are no rules.
  - `validator.dfy` (module `Validators`) is the stateful half. `Builder` appends to a list object in place and returns itself. `build()` passes that same list object to the new `Validator`, so rules added to the builder later are seen by the validator too. That list is `ItemList`, standing for the `ArrayList`.
- **ServicePackage** (`service_package.dfy`, module `ServicePackages`) turns a reply and a fallback into a pair of a value and messages. It also has a variant for a reply of an optional.

`diagnostics.dfy` (module `Diagnostics`) defines the message type. `Reply.java` stores plain `String` messages, and its default message `EMPTY_MESSAGE` is the string "There is no object". `Validator`, `ServicePackage` and the tests use the protobuf `Msg`, which is a severity (INFO, WARNING, ERROR, EXCEPTION) plus a text. The model's `Message` has one constructor for each: `Text(text)` and `Msg(severity, text)`.

Modelling decisions:
- A Java `null` argument or result is an `Option`, used for `ofNullable`, for `ofOptional` and for a mapper's result in `map`.
- `get()` and `messages()` return a `Result`: the matching failure stands for the `NoSuchElementException`, with its text, when the reply is in the wrong state.
- A supplier is a function of no arguments. `orElseGet` and `messagesOrElseGet` call it even when its value is not needed, as the source does.
- The two-collection overload `Reply.empty(first, second)` is called at `src/main/java/com/akmade/util/Validator.java:40`, but `Reply.java` does not define it. The model takes it to build an absent reply with the first collection's messages followed by the second's (`EmptyConcat`). The tests also call a two-message `empty(m1, m2)` (`ReplyTest.java:90`); it corresponds to `EmptyConcat([m1], [m2])`.
- Nothing requires an absent reply to have messages. `Absent([])` can be built directly, and `validate` can return it (see Findings).

In three places the code differs from what an Optional-style API would suggest; the model follows the code:
- `filter` on an absent reply returns `empty(messages)`, replacing the reply's own messages (`Reply.java:282-310`).
- `validate` does not accumulate messages (see Findings).
- `ServicePackage` has only `of(reply, start)` and `ofOptional(reply, start)`. There is no `of(value)` or `of(value, messages)`.

## Model

| member | source | states |
|---|---|---|
| `Replies.EmptyAll` | src/main/java/com/akmade/util/Reply.java:73-75 | `empty(messages)` is absent and `messages()` gives back exactly those messages, even an empty collection |
| `Replies.EmptyOf` | src/main/java/com/akmade/util/Reply.java:61-64 | `empty(m)` is absent with exactly `[m]` |
| `Replies.Empty` | src/main/java/com/akmade/util/Reply.java:51-53 | `empty()` is absent with exactly `[EMPTY_MESSAGE]` |
| `Replies.EmptyConcat` | src/main/java/com/akmade/util/Validator.java:40 | the two-collection `empty(a, b)` is absent with `a` followed by `b`, and has as many messages as `a` and `b` together |
| `Replies.Of` | src/main/java/com/akmade/util/Reply.java:86-88 | `of(v)` is present, `get()` gives `v`, and `messages()` fails with "There are no messages" |
| `Replies.OfNullable` | src/main/java/com/akmade/util/Reply.java:148-152 | present exactly for a non-null value, and then equal to `of(v)`; `ofNullable(null)` equals `empty()` |
| `Replies.OfOptionalAll` | src/main/java/com/akmade/util/Reply.java:102-106 | present exactly for `Some(v)`, and then equal to `of(v)`; for `None` it equals `empty(messages)` |
| `Replies.OfOptionalOf` | src/main/java/com/akmade/util/Reply.java:120-122 | gives `of(v)` for `Some(v)` and `empty(m)` for `None` |
| `Replies.OfOptional` | src/main/java/com/akmade/util/Reply.java:135-137 | gives `of(v)` for `Some(v)` and `empty()` (the default message) for `None` |
| `Replies.Get` | src/main/java/com/akmade/util/Reply.java:161-165 | succeeds exactly when `isPresent()` holds, and then gives the held value; otherwise fails with "No object present" |
| `Replies.OrElse` | src/main/java/com/akmade/util/Reply.java:175-179 | the value when `get()` succeeds, otherwise the fallback |
| `Replies.OrElseGet` | src/main/java/com/akmade/util/Reply.java:191-193 | the value when present, otherwise what the supplier gives |
| `Replies.GetMessages` | src/main/java/com/akmade/util/Reply.java:202-206 | succeeds exactly when the reply is absent, and then gives its messages; otherwise fails with "There are no messages" |
| `Replies.MessagesOrElse` | src/main/java/com/akmade/util/Reply.java:215-219 | the reply's own messages when absent, otherwise the fallback collection |
| `Replies.MessagesOrElseGet` | src/main/java/com/akmade/util/Reply.java:230-232 | the reply's own messages when absent, otherwise what the supplier gives |
| `Replies.FilterAll` | src/main/java/com/akmade/util/Reply.java:303-310 | present exactly when the reply is present and its value passes, and then the same reply; otherwise `empty(messages)`, so an absent reply's own messages are replaced |
| `Replies.FilterOf` | src/main/java/com/akmade/util/Reply.java:282-289 | the same, with `empty(message)` as the failure result |
| `Replies.FilterDefault` | src/main/java/com/akmade/util/Reply.java:266-268 | the same, with `empty()` as the failure result |
| `Replies.Map` | src/main/java/com/akmade/util/Reply.java:326-333 | an absent reply keeps exactly its messages; a present one gives `ofNullable(f(v))` |
| `Replies.FlatMap` | src/main/java/com/akmade/util/Reply.java:354-363 | an absent reply keeps exactly its messages; a present one gives `f(v)` |
| `Replies.OrReply` | src/main/java/com/akmade/util/Reply.java:377-386 | the same reply when present, otherwise the supplied reply |
| `Replies.OrValue` | src/main/java/com/akmade/util/Reply.java:399-406 | always present: the same reply when present, otherwise `of(other)` |
| `Replies.Stream` | src/main/java/com/akmade/util/Reply.java:419-425 | at most one element; exactly one when present, and it is the value `get()` gives |
| `Replies.IsPresent` | src/main/java/com/akmade/util/Reply.java:239-241 | a reply is present exactly when it holds a value; `ReplyLaws.PresenceViews` ties it to `get`, `messages` and `stream` |
| `ReplyLaws.PresenceViews` | src/main/java/com/akmade/util/Reply.java:239-241 | `isPresent()` holds exactly when `get()` succeeds, exactly when `messages()` fails, exactly when `stream()` is non-empty, and the stream is `[get()]` |
| `ReplyLaws.ReplyIsOfOrEmpty` | src/main/java/com/akmade/util/Reply.java:23-44 | every reply is `of(get())` or `empty(messages())` |
| `ReplyLaws.OrElseViaStream` | src/main/java/com/akmade/util/Reply.java:175-179 | `orElse(o)` is the stream's one element, or `o` when the stream is empty |
| `ReplyLaws.MessagesOrElseIgnoresFallback` | src/main/java/com/akmade/util/Reply.java:215-219 | on a present reply the fallback is the result; on an absent one the fallback has no effect |
| `ReplyLaws.OfNullableIsOfOptional` | src/main/java/com/akmade/util/Reply.java:135-152 | `ofNullable(x)` and `ofOptional(x)` build the same reply |
| `ReplyLaws.OfOptionalStream` | src/main/java/com/akmade/util/Reply.java:102-106 | the stream of `ofOptional(o, ms)` is the optional's content; when absent, its messages are `ms` |
| `ReplyLaws.EmptyConcatUnits` | src/main/java/com/akmade/util/Validator.java:40 | the two-collection `empty` with one empty side is the one-collection `empty` |
| `ReplyLaws.FilterOverloads` | src/main/java/com/akmade/util/Reply.java:266-310 | `filter(p, m)` is `filter(p, [m])` and `filter(p)` is `filter(p, [EMPTY_MESSAGE])` |
| `ReplyLaws.FilterConjunction` | src/main/java/com/akmade/util/Reply.java:303-310 | filtering by `p` and then by `q` is filtering by `p && q` |
| `ReplyLaws.FilterIdempotent` | src/main/java/com/akmade/util/Reply.java:303-310 | filtering twice by the same predicate and messages is filtering once |
| `ReplyLaws.FilterTrue` | src/main/java/com/akmade/util/Reply.java:303-310 | an always-true filter keeps a present reply but replaces an absent reply's messages |
| `ReplyLaws.MapIdentity` | src/main/java/com/akmade/util/Reply.java:326-333 | mapping by the identity changes nothing |
| `ReplyLaws.MapComposition` | src/main/java/com/akmade/util/Reply.java:326-333 | `map(f).map(g)` is `map` by the composition, where a null result of `f` stays null |
| `ReplyLaws.MapCompositionNonNull` | src/main/java/com/akmade/util/Reply.java:326-333 | for non-null mappers, `map(f).map(g) == map(g ∘ f)` |
| `ReplyLaws.MapOf` | src/main/java/com/akmade/util/Reply.java:326-333 | `of(v).map(f) == ofNullable(f(v))` |
| `ReplyLaws.MapIsFlatMap` | src/main/java/com/akmade/util/Reply.java:326-363 | `map(f)` is `flatMap(x -> ofNullable(f(x)))` |
| `ReplyLaws.FlatMapLeftIdentity` | src/main/java/com/akmade/util/Reply.java:354-363 | `of(v).flatMap(f) == f(v)` |
| `ReplyLaws.FlatMapRightIdentity` | src/main/java/com/akmade/util/Reply.java:354-363 | `r.flatMap(Reply::of) == r` |
| `ReplyLaws.FlatMapAssociative` | src/main/java/com/akmade/util/Reply.java:354-363 | `r.flatMap(f).flatMap(g) == r.flatMap(x -> f(x).flatMap(g))` |
| `ReplyLaws.AbsentPropagates` | src/main/java/com/akmade/util/Reply.java:326-363 | `map` and `flatMap` of `empty(ms)` both have exactly the messages `ms` |
| `ReplyLaws.OrValueIsOrReply` | src/main/java/com/akmade/util/Reply.java:377-406 | `or(o)` is `or(() -> of(o))` |
| `ReplyLaws.OrValueGet` | src/main/java/com/akmade/util/Reply.java:399-406 | `or(o).get()` is `orElse(o)` |
| `ReplyLaws.OrReplyAssociative` | src/main/java/com/akmade/util/Reply.java:377-386 | chained `or`s are associative: the first present reply wins |
| `Validation.MakeValidation` | src/main/java/com/akmade/util/Validator.java:27-31 | a rule gives `of(t)` exactly when its predicate holds of `t`, else `empty(msg)` |
| `Validation.RuleReplies` | src/main/java/com/akmade/util/Validator.java:35-37 | one reply per rule, in rule order, each the rule's `makeValidation` of `t` |
| `Validation.Combine` | src/main/java/com/akmade/util/Validator.java:38-40 | the combiner as written: present exactly when both sides are, and then the left side; otherwise the left side's messages twice, never the right side's |
| `Validation.CombineAccumulating` | src/main/java/com/akmade/util/Validator.java:38-40 | the corrected combiner: the left side's messages followed by the right side's |
| `Validation.FoldLeft` | src/main/java/com/akmade/util/Validator.java:38 | the sequential left fold of `Stream.reduce`: the combiner is applied to the accumulator and each reply in encounter order; `FoldFromAbsent`, `FoldFromPresent` and their accumulating counterparts give its result |
| `Validation.Reduce` | src/main/java/com/akmade/util/Validator.java:35-41 | the reduction is empty exactly when there are no rule replies |
| `Validation.FoldFromAbsent` | src/main/java/com/akmade/util/Validator.java:38-40 | once the accumulator is absent it stays absent, and its messages double at every further rule |
| `Validation.FoldFromPresent` | src/main/java/com/akmade/util/Validator.java:38-40 | a present accumulator stays present while the rules pass; the first failing rule makes it absent with no messages, so that rule's message is dropped |
| `Validation.RuleRepliesPresent` | src/main/java/com/akmade/util/Validator.java:27-37 | every rule reply is present exactly when every predicate holds |
| `Validation.ValidateItems` | src/main/java/com/akmade/util/Validator.java:34-42 | `validate` as written: the rule replies reduced with the source combiner, or `empty()` when there are no rules; its result is stated by `ValidateItemsClosedForm` |
| `Validation.ValidateItemsAccumulating` | src/main/java/com/akmade/util/Validator.java:34-42 | `validate` with the corrected combiner; its result is stated by `ValidateItemsAccumulatingClosedForm` |
| `Validation.ValidateItemsClosedForm` | src/main/java/com/akmade/util/Validator.java:34-42 | `validate` as written gives `empty()` for no rules and `of(t)` when all rules hold. If the first rule fails, the result is its message repeated 2^(n-1) times. If the first rule holds and a later one fails, the result is absent with no messages |
| `Validation.ValidateItemsPresence` | src/main/java/com/akmade/util/Validator.java:34-42 | `validate` is present exactly when there is a rule and every rule holds, and its value is then `t` |
| `Validation.FoldAccumulatingFromAbsent` | src/main/java/com/akmade/util/Validator.java:38-40 | with the corrected combiner, an absent accumulator gains every later failing reply's messages in order |
| `Validation.FoldAccumulatingFromPresent` | src/main/java/com/akmade/util/Validator.java:38-40 | with the corrected combiner, a present accumulator stays present if all replies are present, else it collects exactly the absent replies' messages |
| `Validation.RuleRepliesMessages` | src/main/java/com/akmade/util/Validator.java:27-37 | the absent rule replies carry exactly the failing rules' messages, in rule order |
| `Validation.FailedMessagesEmpty` | src/main/java/com/akmade/util/Validator.java:27-31 | no failing-rule message exists exactly when every rule holds |
| `Validation.FailedMessagesAppend` | src/main/java/com/akmade/util/Validator.java:63-66 | rules appended later report their messages after the earlier rules' messages |
| `Validation.ValidateItemsAccumulatingClosedForm` | src/main/java/com/akmade/util/Validator.java:34-42 | corrected `validate`: `empty()` for no rules, `of(t)` when all rules hold, and otherwise the non-empty list of the failing rules' messages, in rule order |
| `Validation.ScenarioAsWritten` | src/main/java/com/akmade/util/Validator.java:34-42 | for the rules "must be even" and "must be positive": -3 gives "must be even" twice, and -4 gives no message at all |
| `Validation.ScenarioAccumulating` | src/main/java/com/akmade/util/Validator.java:34-42 | the corrected `validate` on the same rules: `[even, positive]` for -3, `[positive]` for -4, and present 4 for 4 |
| `Validators.ItemList.constructor` | src/main/java/com/akmade/util/Validator.java:46 | the builder's list starts empty |
| `Validators.Builder.constructor` | src/main/java/com/akmade/util/Validator.java:22-24 | `newBuilder()` owns a fresh, empty list |
| `Validators.Builder.AddRule` | src/main/java/com/akmade/util/Validator.java:48-51 | appends exactly one rule `(p, m)` at the end, keeps the earlier rules, and returns the same builder |
| `Validators.Builder.AddValidator` | src/main/java/com/akmade/util/Validator.java:53-56 | appends the validator's rules in order and returns the same builder. The validator's list is unchanged unless it is this builder's own list |
| `Validators.Builder.AddItem` | src/main/java/com/akmade/util/Validator.java:58-61 | appends exactly the given rule and returns the same builder |
| `Validators.Builder.AddItems` | src/main/java/com/akmade/util/Validator.java:63-66 | appends the given rules in order and returns the same builder |
| `Validators.Builder.Build` | src/main/java/com/akmade/util/Validator.java:68-70 | a new validator whose list is the builder's own list object, shared and not copied; the rules are unchanged |
| `Validators.Validator.FromBuilder` | src/main/java/com/akmade/util/Validator.java:17-19 | the validator takes the builder's list object itself |
| `Validators.Validator.Validate` | src/main/java/com/akmade/util/Validator.java:34-42 | `empty()` with no rules; present exactly when there is a rule and all hold, and then `of(t)`; otherwise the doubled first message, or no message at all |
| `Validators.Validator.ValidateAccumulating` | src/main/java/com/akmade/util/Validator.java:34-42 | the corrected `validate` over the shared list: the failing rules' messages, in order |
| `ServicePackages.Of` | src/main/java/com/akmade/util/ServicePackage.java:19-21 | a present reply gives its value and no messages; an absent one gives `start` and the reply's messages |
| `ServicePackages.OfOptional` | src/main/java/com/akmade/util/ServicePackage.java:23-25 | present `Some(x)` gives `(x, [])`, present `None` gives `(start, [])`, and absent gives `(start, messages)`; the value is always the inner value or `start` |
| `ServicePackages.MessagesOnlyFromAbsent` | src/main/java/com/akmade/util/ServicePackage.java:19-21 | a package has messages only when its reply was absent with exactly those messages |
| `ServicePackages.OfOptionalOfSome` | src/main/java/com/akmade/util/ServicePackage.java:19-25 | `ofOptional(reply.map(Optional::of), s)` equals `of(reply, s)` |
| `ServicePackages.OfOptionalFlattens` | src/main/java/com/akmade/util/ServicePackage.java:23-25 | for the value, `ofOptional` collapses both kinds of absence, as flattening with `ofNullable` does. A present `None` gives no message, where flattening would give `EMPTY_MESSAGE` |
| `ServicePackages.OfRoundTrip` | src/main/java/com/akmade/util/ServicePackage.java:19-21 | `of(of(v), s) == (v, [])` and `of(empty(ms), s) == (s, ms)` |

## Findings

| source | as written | input that shows it | evidently intended | confidence | as-written member | corrected member |
|---|---|---|---|---|---|---|
| src/main/java/com/akmade/util/Validator.java:38-40 | when either side is absent, the combiner builds `empty(r1.messagesOrElseGet(..), r1.messagesOrElseGet(..))`: the left side's messages twice, never the right side's | Rules "must be even" then "must be positive". On -3 the result is `["must be even", "must be even"]`. On -4 the result is absent with no messages, because the second rule's message is dropped | the second argument is `r2.messagesOrElseGet(..)`, so every failing rule's message appears once, in rule order: `["must be even", "must be positive"]` and `["must be positive"]` | not executed | `Validation.ScenarioAsWritten` | `Validation.ValidateItemsAccumulatingClosedForm` |

With the source combiner, `Validation.ValidateItemsClosedForm` gives the general picture. A failing first rule reports its own message 2^(n-1) times. Any later failure reports nothing. With the corrected combiner (`Validation.CombineAccumulating`), `Validators.Validator.ValidateAccumulating` reports exactly the failing rules' messages, in order, and never an empty list.

## Left out

- Message collections are modelled as values (`seq<Message>`). The source holds them by reference: `empty(messages)` stores the caller's collection, `messages()` and `messagesOrElse` return that same object, `map` and `flatMap` on an absent reply pass it on, and `ServicePackage.of` and `ofOptional` keep it. So in the source, adding to `r.map(f).messages()` also changes `r.messages()`. The model does not capture this sharing of one collection object between replies, callers and packages.
- `ifPresent(action)` (`Reply.java:251-253`) is not modelled. It exists only to run a side effect on the value.
- Java `null` arguments and the resulting `NullPointerException`s are not modelled. Dafny values cannot be null, so `of`, `filter`, `map`, `flatMap`, `or` and `empty(message)` take non-null arguments by typing. The model therefore leaves out three source behaviours:
  - `orElseGet(null)` throws even on a present reply;
  - `or(null)` throws even on a present reply;
  - `ofOptional(Some(v), null)` throws even though `Some(v)` is present.
- Supplier laziness and `Stream` laziness are not modelled. `or(supplier)` is modelled by its result, which is the same whether the supplier runs lazily or eagerly. `stream()` is a sequence of zero or one elements.
- `ServicePackages.Of` and `ServicePackages.OfOptional` do not state that the package value is never null. Values are never null in Dafny, so this holds by typing whenever `start` is a real value; a `null` start is not modelled.
- The raw `Predicate` type and the vavr `Function2` currying (`Validator.java:27-36`) are not modelled. A rule is a total function from the candidate type to bool, paired with a message.
- `MessageUtility.java` is not part of this model. Its factories are one-line wrappers over the protobuf builders; `Diagnostics.Message` stands for their result.
- The `com.akmade.hibernate` package (session, transaction and query plumbing over the ORM) is not part of this model.
