/**
 * The pure half of Validator: a rule maps a candidate to a one-rule Reply,
 * and validate left-folds the rules' replies with a binary combiner. The
 * combiner of the source reads only its left operand's messages (twice);
 * ValidateItemsAccumulating is the same fold with the combiner evidently
 * intended, which keeps every failing rule's message in rule order.
 */
module Validation {
  import opened Diagnostics
  import opened Replies

  /** ValidationItem: a predicate paired with the message reported when it fails. */
  datatype ValidationItem<-T> = ValidationItem(pred: T -> bool, msg: Message)

  /** Every rule's predicate holds of t. */
  ghost predicate AllHold<T>(items: seq<ValidationItem<T>>, t: T)
  {
    forall k :: 0 <= k < |items| ==> items[k].pred(t)
  }

  /** Every reply in the sequence is present. */
  ghost predicate AllPresent<T>(rs: seq<Reply<T>>)
  {
    forall k :: 0 <= k < |rs| ==> IsPresent(rs[k])
  }

  /** The messages of the rules that fail on t, in rule order. */
  function FailedMessages<T>(items: seq<ValidationItem<T>>, t: T): seq<Message>
  {
    if items == [] then []
    else (if items[0].pred(t) then [] else [items[0].msg]) + FailedMessages(items[1..], t)
  }

  /** The messages of the absent replies, in order. */
  function AbsentMessages<T>(rs: seq<Reply<T>>): seq<Message>
  {
    if rs == [] then [] else MessagesOrElse(rs[0], []) + AbsentMessages(rs[1..])
  }

  // ---------------------------------------------------------------------
  // The fold, as in the source

  /** makeValidation: of(t) if the rule's predicate holds of t, else empty(msg). */
  function MakeValidation<T>(item: ValidationItem<T>, t: T): (r: Reply<T>)
    ensures IsPresent(r) <==> item.pred(t)
    ensures IsPresent(r) ==> r == Of(t)
    ensures !IsPresent(r) ==> r == EmptyOf(item.msg)
  {
    if item.pred(t) then Of(t) else EmptyOf(item.msg)
  }

  /** The stream of one-rule replies, one per rule in rule order. */
  function RuleReplies<T>(items: seq<ValidationItem<T>>, t: T): (rs: seq<Reply<T>>)
    ensures |rs| == |items|
    ensures forall k :: 0 <= k < |items| ==> rs[k] == MakeValidation(items[k], t)
  {
    if items == [] then [] else [MakeValidation(items[0], t)] + RuleReplies(items[1..], t)
  }

  /**
   * The combiner of validate as written: the left reply when both are
   * present, else an absent reply whose messages are the left reply's
   * messages twice. The right reply's messages are never used.
   */
  function Combine<T>(r1: Reply<T>, r2: Reply<T>): (c: Reply<T>)
    ensures IsPresent(c) <==> IsPresent(r1) && IsPresent(r2)
    ensures IsPresent(c) ==> c == r1
    ensures !IsPresent(c) ==> GetMessages(c) == Ok(MessagesOrElse(r1, []) + MessagesOrElse(r1, []))
  {
    if IsPresent(r1) && IsPresent(r2) then r1
    else EmptyConcat(MessagesOrElseGet(r1, () => []), MessagesOrElseGet(r1, () => []))
  }

  /** The combiner as evidently intended: the right reply's messages follow the left's. */
  function CombineAccumulating<T>(r1: Reply<T>, r2: Reply<T>): (c: Reply<T>)
    ensures IsPresent(c) <==> IsPresent(r1) && IsPresent(r2)
    ensures IsPresent(c) ==> c == r1
    ensures !IsPresent(c) ==> GetMessages(c) == Ok(MessagesOrElse(r1, []) + MessagesOrElse(r2, []))
  {
    if IsPresent(r1) && IsPresent(r2) then r1
    else EmptyConcat(MessagesOrElseGet(r1, () => []), MessagesOrElseGet(r2, () => []))
  }

  /** A sequential left fold, as Stream.reduce performs it in encounter order. */
  function FoldLeft<T>(acc: Reply<T>, rs: seq<Reply<T>>, combine: (Reply<T>, Reply<T>) -> Reply<T>): Reply<T>
    decreases |rs|
  {
    if rs == [] then acc else FoldLeft(combine(acc, rs[0]), rs[1..], combine)
  }

  /** Stream.reduce(combiner): nothing for no elements, else the fold from the first. */
  function Reduce<T>(rs: seq<Reply<T>>, combine: (Reply<T>, Reply<T>) -> Reply<T>): (o: Option<Reply<T>>)
    ensures o.None? <==> rs == []
  {
    if rs == [] then None else Some(FoldLeft(rs[0], rs[1..], combine))
  }

  /** validate(t) as written: reduce the rule replies, or empty() when there are no rules. */
  function ValidateItems<T>(items: seq<ValidationItem<T>>, t: T): Reply<T>
  {
    match Reduce(RuleReplies(items, t), (a, b) => Combine(a, b))
    case Some(r) => r
    case None => Empty()
  }

  /** validate(t) with the evidently intended combiner. */
  function ValidateItemsAccumulating<T>(items: seq<ValidationItem<T>>, t: T): Reply<T>
  {
    match Reduce(RuleReplies(items, t), (a, b) => CombineAccumulating(a, b))
    case Some(r) => r
    case None => Empty()
  }

  // ---------------------------------------------------------------------
  // Helpers for the as-written fold: messages only ever double

  /** ms concatenated with itself, k times over (DoubledRepeat gives its shape). */
  function Doubled(ms: seq<Message>, k: nat): seq<Message>
    decreases k
  {
    if k == 0 then ms else Doubled(ms + ms, k - 1)
  }

  /** 2 to the power k. */
  function Pow2(k: nat): nat
  {
    if k == 0 then 1 else 2 * Pow2(k - 1)
  }

  /** n copies of m. */
  function Repeat(m: Message, n: nat): (s: seq<Message>)
    ensures |s| == n
    ensures forall j :: 0 <= j < n ==> s[j] == m
  {
    if n == 0 then [] else [m] + Repeat(m, n - 1)
  }

  lemma {:induction false} RepeatAdd(m: Message, a: nat, b: nat)
    ensures Repeat(m, a) + Repeat(m, b) == Repeat(m, a + b)
  {
    if a > 0 {
      RepeatAdd(m, a - 1, b);
      assert Repeat(m, a) + Repeat(m, b) == [m] + (Repeat(m, a - 1) + Repeat(m, b));
    }
  }

  lemma {:induction false} DoubledRepeat(m: Message, n: nat, k: nat)
    ensures Doubled(Repeat(m, n), k) == Repeat(m, n * Pow2(k))
    decreases k
  {
    if k > 0 {
      RepeatAdd(m, n, n);
      DoubledRepeat(m, n + n, k - 1);
      assert (n + n) * Pow2(k - 1) == n * Pow2(k);
    }
  }

  lemma {:induction false} DoubledNothing(k: nat)
    ensures Doubled([], k) == []
  {
    if k > 0 {
      var none: seq<Message> := [];
      assert none + none == none;
      DoubledNothing(k - 1);
    }
  }

  /** Once the as-written accumulator is absent, it stays absent and its messages double at every step. */
  lemma {:induction false} FoldFromAbsent<T>(ms: seq<Message>, rs: seq<Reply<T>>)
    ensures FoldLeft(Absent(ms), rs, (a, b) => Combine(a, b)) == Absent(Doubled(ms, |rs|))
    decreases |rs|
  {
    if rs != [] {
      FoldFromAbsent<T>(ms + ms, rs[1..]);
    }
  }

  /**
   * From a present accumulator the as-written fold stays present while every
   * reply is present, and the first absent reply turns it into an absent
   * reply with no messages at all.
   */
  lemma {:induction false} FoldFromPresent<T>(t: T, rs: seq<Reply<T>>)
    ensures AllPresent(rs) ==> FoldLeft(Present(t), rs, (a, b) => Combine(a, b)) == Present(t)
    ensures !AllPresent(rs) ==> FoldLeft(Present(t), rs, (a, b) => Combine(a, b)) == Absent([])
    decreases |rs|
  {
    if rs != [] {
      if IsPresent(rs[0]) {
        FoldFromPresent(t, rs[1..]);
        assert AllPresent(rs) <==> AllPresent(rs[1..]) by {
          if AllPresent(rs[1..]) {
            forall k | 0 <= k < |rs| ensures IsPresent(rs[k]) {
              if k > 0 { assert rs[k] == rs[1..][k - 1]; }
            }
          }
        }
      } else {
        FoldFromAbsent<T>([], rs[1..]);
        DoubledNothing(|rs[1..]|);
      }
    }
  }

  lemma RuleRepliesPresent<T>(items: seq<ValidationItem<T>>, t: T)
    ensures AllPresent(RuleReplies(items, t)) <==> AllHold(items, t)
  {
  }

  /**
   * validate as written: no rules give empty(); all rules holding give of(t);
   * a failing first rule gives its message 2^(n-1) times; a passing first rule
   * followed by any failing rule gives an absent reply with no messages.
   */
  lemma {:induction false} ValidateItemsClosedForm<T>(items: seq<ValidationItem<T>>, t: T)
    ensures |items| == 0 ==> ValidateItems(items, t) == Empty()
    ensures |items| > 0 && AllHold(items, t) ==> ValidateItems(items, t) == Of(t)
    ensures |items| > 0 && !items[0].pred(t) ==>
              ValidateItems(items, t) == EmptyAll(Repeat(items[0].msg, Pow2(|items| - 1)))
    ensures |items| > 0 && items[0].pred(t) && !AllHold(items, t) ==>
              ValidateItems(items, t) == EmptyAll([])
  {
    if |items| > 0 {
      var rs := RuleReplies(items, t);
      RuleRepliesPresent(items, t);
      if items[0].pred(t) {
        FoldFromPresent(t, rs[1..]);
        assert AllPresent(rs) <==> AllPresent(rs[1..]) by {
          if AllPresent(rs[1..]) {
            forall k | 0 <= k < |rs| ensures IsPresent(rs[k]) {
              if k > 0 { assert rs[k] == rs[1..][k - 1]; }
            }
          }
        }
      } else {
        FoldFromAbsent<T>([items[0].msg], rs[1..]);
        DoubledRepeat(items[0].msg, 1, |items| - 1);
        assert Repeat(items[0].msg, 1) == [items[0].msg];
      }
    }
  }

  /** validate as written is present exactly when there is a rule and every rule holds, and then holds t. */
  lemma ValidateItemsPresence<T>(items: seq<ValidationItem<T>>, t: T)
    ensures IsPresent(ValidateItems(items, t)) <==> |items| > 0 && AllHold(items, t)
    ensures IsPresent(ValidateItems(items, t)) ==> ValidateItems(items, t) == Of(t)
  {
    ValidateItemsClosedForm(items, t);
  }

  // ---------------------------------------------------------------------
  // The accumulating fold

  lemma {:induction false} FoldAccumulatingFromAbsent<T>(ms: seq<Message>, rs: seq<Reply<T>>)
    ensures FoldLeft(Absent(ms), rs, (a, b) => CombineAccumulating(a, b)) == Absent(ms + AbsentMessages(rs))
    decreases |rs|
  {
    if rs == [] {
      assert ms + [] == ms;
    } else {
      FoldAccumulatingFromAbsent<T>(ms + MessagesOrElse(rs[0], []), rs[1..]);
      assert ms + MessagesOrElse(rs[0], []) + AbsentMessages(rs[1..]) == ms + AbsentMessages(rs);
    }
  }

  lemma {:induction false} FoldAccumulatingFromPresent<T>(t: T, rs: seq<Reply<T>>)
    ensures AllPresent(rs) ==> FoldLeft(Present(t), rs, (a, b) => CombineAccumulating(a, b)) == Present(t)
    ensures !AllPresent(rs) ==>
              FoldLeft(Present(t), rs, (a, b) => CombineAccumulating(a, b)) == Absent(AbsentMessages(rs))
    decreases |rs|
  {
    if rs != [] {
      assert AllPresent(rs) <==> IsPresent(rs[0]) && AllPresent(rs[1..]) by {
        if IsPresent(rs[0]) && AllPresent(rs[1..]) {
          forall k | 0 <= k < |rs| ensures IsPresent(rs[k]) {
            if k > 0 { assert rs[k] == rs[1..][k - 1]; }
          }
        }
      }
      if IsPresent(rs[0]) {
        FoldAccumulatingFromPresent(t, rs[1..]);
      } else {
        FoldAccumulatingFromAbsent<T>([] + rs[0].msgs, rs[1..]);
        assert [] + rs[0].msgs == MessagesOrElse(rs[0], []);
      }
    }
  }

  lemma {:induction false} RuleRepliesMessages<T>(items: seq<ValidationItem<T>>, t: T)
    ensures AbsentMessages(RuleReplies(items, t)) == FailedMessages(items, t)
  {
    if items != [] {
      RuleRepliesMessages(items[1..], t);
      assert RuleReplies(items, t)[1..] == RuleReplies(items[1..], t);
    }
  }

  /** No message is reported exactly when every rule holds. */
  lemma {:induction false} FailedMessagesEmpty<T>(items: seq<ValidationItem<T>>, t: T)
    ensures FailedMessages(items, t) == [] <==> AllHold(items, t)
  {
    if items != [] {
      FailedMessagesEmpty(items[1..], t);
      if AllHold(items[1..], t) && items[0].pred(t) {
        forall k | 0 <= k < |items| ensures items[k].pred(t) {
          if k > 0 { assert items[k] == items[1..][k - 1]; }
        }
      }
    }
  }

  /** Rules appended later report their messages after the earlier rules'. */
  lemma {:induction false} FailedMessagesAppend<T>(a: seq<ValidationItem<T>>, b: seq<ValidationItem<T>>, t: T)
    ensures FailedMessages(a + b, t) == FailedMessages(a, t) + FailedMessages(b, t)
  {
    if a == [] {
      assert a + b == b;
    } else {
      var head := if a[0].pred(t) then [] else [a[0].msg];
      assert (a + b)[0] == a[0];
      assert (a + b)[1..] == a[1..] + b;
      calc {
        FailedMessages(a + b, t);
        head + FailedMessages(a[1..] + b, t);
        { FailedMessagesAppend(a[1..], b, t); }
        head + (FailedMessages(a[1..], t) + FailedMessages(b, t));
        (head + FailedMessages(a[1..], t)) + FailedMessages(b, t);
        FailedMessages(a, t) + FailedMessages(b, t);
      }
    }
  }

  /**
   * validate with the accumulating combiner: no rules give empty(); all rules
   * holding give of(t); otherwise the reply is absent with the messages of
   * exactly the failing rules, in rule order, and there is at least one.
   */
  lemma {:induction false} ValidateItemsAccumulatingClosedForm<T>(items: seq<ValidationItem<T>>, t: T)
    ensures |items| == 0 ==> ValidateItemsAccumulating(items, t) == Empty()
    ensures |items| > 0 && AllHold(items, t) ==> ValidateItemsAccumulating(items, t) == Of(t)
    ensures !AllHold(items, t) ==>
              ValidateItemsAccumulating(items, t) == EmptyAll(FailedMessages(items, t)) &&
              FailedMessages(items, t) != []
  {
    FailedMessagesEmpty(items, t);
    if |items| > 0 {
      var rs := RuleReplies(items, t);
      RuleRepliesPresent(items, t);
      RuleRepliesMessages(items, t);
      assert rs[1..] == RuleReplies(items[1..], t);
      RuleRepliesMessages(items[1..], t);
      RuleRepliesPresent(items[1..], t);
      if items[0].pred(t) {
        FoldAccumulatingFromPresent(t, rs[1..]);
        assert AllHold(items, t) <==> AllHold(items[1..], t) by {
          if AllHold(items[1..], t) {
            forall k | 0 <= k < |items| ensures items[k].pred(t) {
              if k > 0 { assert items[k] == items[1..][k - 1]; }
            }
          }
        }
      } else {
        FoldAccumulatingFromAbsent<T>([items[0].msg], rs[1..]);
      }
    }
  }

  // ---------------------------------------------------------------------
  // Two rules over an integer candidate, as written and as intended

  const MUST_BE_EVEN: Message := Msg(ERROR, "must be even")
  const MUST_BE_POSITIVE: Message := Msg(ERROR, "must be positive")

  function EvenThenPositive(): seq<ValidationItem<int>>
  {
    [ValidationItem(x => x % 2 == 0, MUST_BE_EVEN), ValidationItem(x => x > 0, MUST_BE_POSITIVE)]
  }

  /**
   * As written, -3 (failing both rules) reports the first rule's message twice
   * and never the second's, and -4 (failing only the second) reports nothing.
   */
  lemma ScenarioAsWritten()
    ensures ValidateItems(EvenThenPositive(), -3) == EmptyAll([MUST_BE_EVEN, MUST_BE_EVEN])
    ensures ValidateItems(EvenThenPositive(), -4) == EmptyAll([])
  {
    ValidateItemsClosedForm(EvenThenPositive(), -3);
    ValidateItemsClosedForm(EvenThenPositive(), -4);
    assert !EvenThenPositive()[1].pred(-4);
    assert Repeat(MUST_BE_EVEN, 2) == [MUST_BE_EVEN, MUST_BE_EVEN];
  }

  /** With the accumulating combiner, each failing rule's message appears once, in rule order. */
  lemma ScenarioAccumulating()
    ensures ValidateItemsAccumulating(EvenThenPositive(), -3) == EmptyAll([MUST_BE_EVEN, MUST_BE_POSITIVE])
    ensures ValidateItemsAccumulating(EvenThenPositive(), -4) == EmptyAll([MUST_BE_POSITIVE])
    ensures ValidateItemsAccumulating(EvenThenPositive(), 4) == Of(4)
  {
    ValidateItemsAccumulatingClosedForm(EvenThenPositive(), -3);
    ValidateItemsAccumulatingClosedForm(EvenThenPositive(), -4);
    ValidateItemsAccumulatingClosedForm(EvenThenPositive(), 4);
  }
}
