/** Collapsing two add/remove deltas over a room's state into one (federationsender). */
module StateDeltas {
  import opened Prelude

  /** Two deltas in the order the roomserver means them: add 1, remove 1, add 2, remove 2. */
  datatype Deltas = Deltas(adds1: seq<EventID>, removes1: seq<EventID>,
                           adds2: seq<EventID>, removes2: seq<EventID>)

  /** What the four lists do to a state when applied one after the other. */
  ghost function Apply(s: set<EventID>, d: Deltas): (final: set<EventID>) {
    s + ToSet(d.adds1) - ToSet(d.removes1) + ToSet(d.adds2) - ToSet(d.removes2)
  }

  /** Every add is new and every remove is present, at the point where it is applied. */
  ghost predicate Tidy(s: set<EventID>, d: Deltas) {
    var s1 := s + ToSet(d.adds1);
    var s2 := s1 - ToSet(d.removes1);
    var s3 := s2 + ToSet(d.adds2);
    && ToSet(d.adds1) !! s
    && ToSet(d.removes1) <= s1
    && ToSet(d.adds2) !! s2
    && ToSet(d.removes2) <= s3
  }

  /** Whether the four lists treat one ID so that cancelling opposite operations is harmless.
      An absent ID may be added twice but only removed while present; a present ID may be
      removed twice but only added after a removal (or cancelled away and removed again). */
  ghost predicate FitsAt(s: set<EventID>, d: Deltas, x: EventID) {
    if x !in s then
      && (x in d.removes1 ==> x in d.adds1)
      && (x in d.removes2 ==> x in d.adds2 || (x in d.adds1 && x !in d.removes1))
    else
      && (x in d.adds1 ==> x in d.removes1 && x !in d.adds2 && x in d.removes2)
      && (x in d.adds2 ==> x in d.removes1)
  }

  ghost predicate Fits(s: set<EventID>, d: Deltas) {
    forall x :: FitsAt(s, d, x)
  }

  /** `adds` and `removes` are exactly the difference the four lists make to `s`. */
  ghost predicate IsNetDelta(s: set<EventID>, d: Deltas, adds: set<EventID>, removes: set<EventID>) {
    adds == Apply(s, d) - s && removes == s - Apply(s, d)
  }

  /** One pass of the `combine` closure: each distinct value cancels an opposite entry if
      there is one, and is recorded otherwise. */
  method Combine(values: seq<EventID>, removeFrom: set<EventID>, addTo: set<EventID>)
    returns (removeFrom': set<EventID>, addTo': set<EventID>)
    ensures removeFrom' == removeFrom - ToSet(values)
    ensures addTo' == addTo + (ToSet(values) - removeFrom)
  {
    removeFrom', addTo' := removeFrom, addTo;
    var processed: set<EventID> := {};
    for i := 0 to |values|
      invariant processed == ToSet(values[..i])
      invariant removeFrom' == removeFrom - processed
      invariant addTo' == addTo + (processed - removeFrom)
    {
      var value := values[i];
      assert values[..i + 1] == values[..i] + [value];
      if value !in processed {
        processed := processed + {value};
        if value in removeFrom' {
          removeFrom' := removeFrom' - {value};
        } else {
          addTo' := addTo' + {value};
        }
      }
    }
    assert values[..|values|] == values;
  }

  /** The combined lists are duplicate-free and never overlap, whatever the input.  They are
      the net effect on a state exactly when the deltas fit that state. */
  method CombineDeltas(d: Deltas) returns (adds: seq<EventID>, removes: seq<EventID>)
    ensures Distinct(adds) && Distinct(removes) && ToSet(adds) !! ToSet(removes)
    ensures forall s :: Fits(s, d) <==> IsNetDelta(s, d, ToSet(adds), ToSet(removes))
  {
    var addSet, removeSet: set<EventID>, none: set<EventID> := {}, {}, {};
    none, addSet := Combine(d.adds1, none, addSet);
    addSet, removeSet := Combine(d.removes1, addSet, removeSet);
    removeSet, addSet := Combine(d.adds2, removeSet, addSet);
    addSet, removeSet := Combine(d.removes2, addSet, removeSet);
    adds := Enumerate(addSet);
    removes := Enumerate(removeSet);
    forall s
      ensures Fits(s, d) <==> IsNetDelta(s, d, addSet, removeSet)
    {
      FitsIffNet(s, d, addSet, removeSet);
    }
  }

  /** What the four passes leave in the two sets, one ID at a time. */
  ghost predicate Cancelled(d: Deltas, addSet: set<EventID>, removeSet: set<EventID>, x: EventID) {
    var add1 := x in d.adds1;
    var rem1 := x in d.removes1 && !add1;
    var add1' := add1 && x !in d.removes1;
    var add2 := add1' || (x in d.adds2 && !rem1);
    var rem2 := rem1 && x !in d.adds2;
    && (x in addSet <==> add2 && x !in d.removes2)
    && (x in removeSet <==> rem2 || (x in d.removes2 && !add2))
  }

  lemma FitsIffNet(s: set<EventID>, d: Deltas, addSet: set<EventID>, removeSet: set<EventID>)
    requires forall x :: Cancelled(d, addSet, removeSet, x)
    ensures Fits(s, d) <==> IsNetDelta(s, d, addSet, removeSet)
  {
    forall x
      ensures FitsAt(s, d, x) <==>
              ((x in addSet <==> x in Apply(s, d) - s) && (x in removeSet <==> x in s - Apply(s, d)))
    {
      assert Cancelled(d, addSet, removeSet, x);
    }
    if IsNetDelta(s, d, addSet, removeSet) {
      assert forall x :: FitsAt(s, d, x);
    }
  }

  /** Tidy deltas always fit, so combining them loses nothing. */
  lemma TidyFits(s: set<EventID>, d: Deltas)
    requires Tidy(s, d)
    ensures Fits(s, d)
  {
    forall x
      ensures FitsAt(s, d, x)
    {
      assert x in ToSet(d.adds1) <==> x in d.adds1;
      assert x in ToSet(d.removes1) <==> x in d.removes1;
      assert x in ToSet(d.adds2) <==> x in d.adds2;
      assert x in ToSet(d.removes2) <==> x in d.removes2;
    }
  }

  /** Removing an absent ID and then adding it cancels to nothing, yet the ID has appeared. */
  lemma UntidyDeltasLoseAnAdd()
    ensures var d := Deltas([], ["$a"], ["$a"], []);
            !Fits({}, d) && Apply({}, d) == {"$a"} && Cancelled(d, {}, {}, "$a")
  {
    var d := Deltas([], ["$a"], ["$a"], []);
    assert !FitsAt({}, d, "$a");
  }
}
