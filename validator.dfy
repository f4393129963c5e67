/**
 * The stateful half of Validator. A Builder appends rules to a list in place
 * and returns itself; build() hands that very list to the Validator, so the
 * list is shared, not copied, and rules the builder adds afterwards are seen
 * by the validator too. ItemList is that shared java.util.ArrayList.
 */
module Validators {
  import opened Diagnostics
  import opened Replies
  import opened Validation

  /** The mutable list of rules shared by a Builder and the Validators it builds. */
  class ItemList<T> {
    var items: seq<ValidationItem<T>>

    constructor ()
      ensures items == []
    {
      items := [];
    }
  }

  class Builder<T> {
    /** items_: created with the builder, never replaced, only appended to. */
    const list: ItemList<T>

    /** newBuilder(): a builder with a fresh, empty list. */
    constructor ()
      ensures fresh(list) && list.items == []
    {
      list := new ItemList();
    }

    /** addValidation(predicate, msg): append the rule (predicate, msg); return this builder. */
    method AddRule(p: T -> bool, m: Message) returns (b: Builder<T>)
      modifies list
      ensures b == this
      ensures list.items == old(list.items) + [ValidationItem(p, m)]
    {
      list.items := list.items + [ValidationItem(p, m)];
      b := this;
    }

    /**
     * addValidation(validator): append the validator's rules in order. The
     * validator's list is left as it was unless it is this builder's own list,
     * in which case the list ends up holding its old rules twice.
     */
    method AddValidator(v: Validator<T>) returns (b: Builder<T>)
      modifies list
      ensures b == this
      ensures list.items == old(list.items) + old(v.items.items)
      ensures v.items != list ==> v.items.items == old(v.items.items)
    {
      list.items := list.items + v.items.items;
      b := this;
    }

    /** addValidation(item): append one rule; return this builder. */
    method AddItem(item: ValidationItem<T>) returns (b: Builder<T>)
      modifies list
      ensures b == this
      ensures list.items == old(list.items) + [item]
    {
      list.items := list.items + [item];
      b := this;
    }

    /** addValidation(collection): append the rules in order; return this builder. */
    method AddItems(items: seq<ValidationItem<T>>) returns (b: Builder<T>)
      modifies list
      ensures b == this
      ensures list.items == old(list.items) + items
    {
      list.items := list.items + items;
      b := this;
    }

    /** build(): a new validator over this builder's own list (shared, not copied). */
    method Build() returns (v: Validator<T>)
      ensures fresh(v) && v.items == list
      ensures list.items == old(list.items)
    {
      v := new Validator.FromBuilder(this);
    }
  }

  class Validator<T> {
    /** The rules, the very list of the builder this validator was built from. */
    const items: ItemList<T>

    /** The private Validator(Builder) constructor: take the builder's list. */
    constructor FromBuilder(b: Builder<T>)
      ensures items == b.list
    {
      items := b.list;
    }

    /**
     * validate(t), as the source computes it: empty() with no rules; present
     * with t exactly when there is a rule and every rule holds; otherwise the
     * messages of ValidateItemsClosedForm.
     */
    function Validate(t: T): (r: Reply<T>)
      reads items
      ensures |items.items| == 0 ==> r == Empty()
      ensures IsPresent(r) <==> |items.items| > 0 && AllHold(items.items, t)
      ensures IsPresent(r) ==> r == Of(t)
      ensures |items.items| > 0 && !items.items[0].pred(t) ==>
                r == EmptyAll(Repeat(items.items[0].msg, Pow2(|items.items| - 1)))
      ensures |items.items| > 0 && items.items[0].pred(t) && !AllHold(items.items, t) ==>
                r == EmptyAll([])
    {
      ValidateItemsClosedForm(items.items, t);
      ValidateItems(items.items, t)
    }

    /**
     * validate(t) with the accumulating combiner: empty() with no rules,
     * of(t) when every rule holds, else exactly the failing rules' messages.
     */
    function ValidateAccumulating(t: T): (r: Reply<T>)
      reads items
      ensures |items.items| == 0 ==> r == Empty()
      ensures IsPresent(r) <==> |items.items| > 0 && AllHold(items.items, t)
      ensures IsPresent(r) ==> r == Of(t)
      ensures !AllHold(items.items, t) ==> r == EmptyAll(FailedMessages(items.items, t))
    {
      ValidateItemsAccumulatingClosedForm(items.items, t);
      ValidateItemsAccumulating(items.items, t)
    }
  }

  /**
   * Chained additions land in one list, and a validator built in the middle
   * of the chain sees the rules added after it was built.
   */
  method SharedListClient(p: int -> bool, q: int -> bool, m: Message, n: Message)
  {
    var builder := new Builder<int>();
    var b1 := builder.AddRule(p, m);
    var v := b1.Build();
    assert v.items.items == [ValidationItem(p, m)];
    var b2 := b1.AddRule(q, n);
    assert b2 == builder;
    assert v.items.items == [ValidationItem(p, m), ValidationItem(q, n)];
  }
}
