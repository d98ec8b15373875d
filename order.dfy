/**
 * The coffee order record of the barista agent as a value, with the
 * completeness predicate and the effect of one `update_order` call
 * (backend/src/agent.py). The mutable record that the agent holds lives in
 * module Barista; its methods are specified by the functions here.
 */
module OrderRecord {
  import opened Wrappers

  /** A coffee order: four optional scalar fields and a list of extras. */
  datatype Order = Order(
    drinkType: Option<string>,
    size: Option<string>,
    milk: Option<string>,
    extras: seq<string>,
    name: Option<string>)

  /** The record the agent starts with and resets to after a completed order. */
  const Empty: Order := Order(None, None, None, [], None)

  /** The four scalar fields, so that a property can be stated once for all of them. */
  datatype Field = DrinkType | Size | Milk | Name

  function Slot(o: Order, f: Field): Option<string>
  {
    match f
    case DrinkType => o.drinkType
    case Size => o.size
    case Milk => o.milk
    case Name => o.name
  }

  /** An order is complete when drink, size, milk and customer name are all set. */
  predicate IsComplete(o: Order)
  {
    o.drinkType != None && o.size != None && o.milk != None && o.name != None
  }

  /** Completeness is exactly "every scalar field is set"; extras play no part. */
  lemma CompleteIffAllSet(o: Order)
    ensures IsComplete(o) <==> forall f: Field :: Slot(o, f).Some?
    ensures forall e: seq<string> :: IsComplete(o.(extras := e)) == IsComplete(o)
  {
    if forall f: Field :: Slot(o, f).Some? {
      assert Slot(o, DrinkType).Some? && Slot(o, Size).Some?;
      assert Slot(o, Milk).Some? && Slot(o, Name).Some?;
    }
  }

  /** No scalar field holds the empty string: what `update_order` can ever store. */
  predicate WellFormed(o: Order)
  {
    forall f: Field :: Slot(o, f) != Some("")
  }

  // ---------------------------------------------------------------------------
  //  One call of update_order
  // ---------------------------------------------------------------------------

  /** The arguments of one `update_order` call; each defaults to `None`. */
  datatype Update = Update(
    drinkType: Option<string>,
    size: Option<string>,
    milk: Option<string>,
    extras: Option<seq<string>>,
    name: Option<string>)

  /** Python truthiness of a string argument: set and not the empty string. */
  predicate Supplied(v: Option<string>)
  {
    v.Some? && v.value != ""
  }

  function Arg(u: Update, f: Field): Option<string>
  {
    match f
    case DrinkType => u.drinkType
    case Size => u.size
    case Milk => u.milk
    case Name => u.name
  }

  /** What the call appends to extras: the list if it is truthy (non-empty), else nothing. */
  function Fragment(u: Update): seq<string>
  {
    if u.extras.Some? && u.extras.value != [] then u.extras.value else []
  }

  /** A scalar field after one call: the argument if truthy, else the old value. */
  function Merge(current: Option<string>, arg: Option<string>): Option<string>
  {
    if Supplied(arg) then arg else current
  }

  /** The record after one `update_order` call. */
  function Apply(o: Order, u: Update): Order
  {
    Order(
      Merge(o.drinkType, u.drinkType),
      Merge(o.size, u.size),
      Merge(o.milk, u.milk),
      if u.extras.Some? && u.extras.value != [] then o.extras + u.extras.value else o.extras,
      Merge(o.name, u.name))
  }

  /**
   * One call stores each truthy scalar argument and leaves every other scalar
   * alone; extras keep their old entries and gain the fragment at the end; a
   * complete order stays complete, and no scalar becomes the empty string.
   */
  lemma ApplyEffect(o: Order, u: Update)
    ensures forall f: Field :: Supplied(Arg(u, f)) ==> Slot(Apply(o, u), f) == Arg(u, f)
    ensures forall f: Field :: !Supplied(Arg(u, f)) ==> Slot(Apply(o, u), f) == Slot(o, f)
    ensures |Apply(o, u).extras| == |o.extras| + |Fragment(u)|
    ensures Apply(o, u).extras[..|o.extras|] == o.extras
    ensures Apply(o, u).extras[|o.extras|..] == Fragment(u)
    ensures IsComplete(o) ==> IsComplete(Apply(o, u))
    ensures WellFormed(o) ==> WellFormed(Apply(o, u))
  {
  }

  /** A call that carries no extras changes nothing when it is repeated. */
  lemma ScalarUpdateIdempotent(o: Order, u: Update)
    requires Fragment(u) == []
    ensures Apply(Apply(o, u), u) == Apply(o, u)
  {
  }

  /** Repeating a call that carries extras sets the same scalars but appends the extras twice. */
  lemma RepeatedExtrasDuplicate(o: Order, u: Update)
    ensures forall f: Field :: Slot(Apply(Apply(o, u), u), f) == Slot(Apply(o, u), f)
    ensures Apply(Apply(o, u), u).extras == o.extras + Fragment(u) + Fragment(u)
  {
  }

  // ---------------------------------------------------------------------------
  //  A sequence of update_order calls
  // ---------------------------------------------------------------------------

  /** The record after the calls `us`, applied in call order. */
  function ApplyAll(o: Order, us: seq<Update>): Order
    decreases |us|
  {
    if us == [] then o else Apply(ApplyAll(o, us[..|us| - 1]), us[|us| - 1])
  }

  /** All extras supplied by the calls `us`, concatenated in call order. */
  function Fragments(us: seq<Update>): seq<string>
  {
    if us == [] then [] else Fragment(us[0]) + Fragments(us[1..])
  }

  /** Call `k` supplies field `f`, and no later call does. */
  predicate LastSupply(us: seq<Update>, f: Field, k: int)
  {
    0 <= k < |us| && Supplied(Arg(us[k], f)) &&
    forall j :: k < j < |us| ==> !Supplied(Arg(us[j], f))
  }

  /** Some call among `us` supplies field `f`. */
  predicate SuppliedSomewhere(us: seq<Update>, f: Field)
  {
    exists k :: 0 <= k < |us| && Supplied(Arg(us[k], f))
  }

  lemma {:induction false} FragmentsSnoc(us: seq<Update>, u: Update)
    ensures Fragments(us + [u]) == Fragments(us) + Fragment(u)
  {
    if us != [] {
      calc {
        Fragments(us + [u]);
        { assert (us + [u])[1..] == us[1..] + [u]; }
        Fragment(us[0]) + Fragments(us[1..] + [u]);
        { FragmentsSnoc(us[1..], u); }
        Fragment(us[0]) + (Fragments(us[1..]) + Fragment(u));
      }
    }
  }

  /** Extras only grow: they are the old extras followed by every supplied fragment, in call order. */
  lemma {:induction false} ExtrasAccumulate(o: Order, us: seq<Update>)
    ensures ApplyAll(o, us).extras == o.extras + Fragments(us)
  {
    if us != [] {
      var init, last := us[..|us| - 1], us[|us| - 1];
      assert us == init + [last];
      ExtrasAccumulate(o, init);
      FragmentsSnoc(init, last);
    }
  }

  /** A field that no call supplies keeps its starting value. */
  lemma {:induction false} UnsuppliedUnchanged(o: Order, us: seq<Update>, f: Field)
    requires !SuppliedSomewhere(us, f)
    ensures Slot(ApplyAll(o, us), f) == Slot(o, f)
  {
    if us != [] {
      var init := us[..|us| - 1];
      assert !SuppliedSomewhere(init, f) by {
        forall k | 0 <= k < |init| ensures !Supplied(Arg(init[k], f)) {
          assert init[k] == us[k];
        }
      }
      UnsuppliedUnchanged(o, init, f);
    }
  }

  /** Last write wins: a field holds the value of the last call that supplied it. */
  lemma {:induction false} LastWriteWins(o: Order, us: seq<Update>, f: Field, k: int)
    requires LastSupply(us, f, k)
    ensures Slot(ApplyAll(o, us), f) == Arg(us[k], f)
  {
    var init := us[..|us| - 1];
    if k < |us| - 1 {
      assert LastSupply(init, f, k) by {
        forall j | k < j < |init| ensures !Supplied(Arg(init[j], f)) {
          assert init[j] == us[j];
        }
      }
      LastWriteWins(o, init, f, k);
    }
  }

  /** A field supplied by some call has a last call supplying it. */
  lemma {:induction false} LastSupplyExists(us: seq<Update>, f: Field)
    requires SuppliedSomewhere(us, f)
    ensures exists k :: LastSupply(us, f, k)
  {
    var init, last := us[..|us| - 1], us[|us| - 1];
    if Supplied(Arg(last, f)) {
      assert LastSupply(us, f, |us| - 1);
    } else {
      var k :| 0 <= k < |us| && Supplied(Arg(us[k], f));
      assert init[k] == us[k];
      LastSupplyExists(init, f);
      var m :| LastSupply(init, f, m);
      assert init[m] == us[m];
      assert LastSupply(us, f, m);
    }
  }

  /**
   * Starting from the empty record, a sequence of calls yields a complete order
   * exactly when each of drink, size, milk and name is supplied by some call.
   */
  lemma CompleteAfterUpdates(us: seq<Update>)
    ensures IsComplete(ApplyAll(Empty, us)) <==> forall f: Field :: SuppliedSomewhere(us, f)
  {
    var r := ApplyAll(Empty, us);
    forall f: Field ensures Slot(r, f).Some? <==> SuppliedSomewhere(us, f) {
      if SuppliedSomewhere(us, f) {
        LastSupplyExists(us, f);
        var k :| LastSupply(us, f, k);
        LastWriteWins(Empty, us, f, k);
      } else {
        UnsuppliedUnchanged(Empty, us, f);
      }
    }
    CompleteIffAllSet(r);
  }
}
