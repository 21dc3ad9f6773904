// Which whole units of an order's lines add up to a refund (deskhand/tools/irreversible.py).
module Reconciliation {
  import opened Base

  datatype Item = Item(name: string, quantity: nat, unitPrice: nat)

  type Counts = seq<nat>

  // `itertools.product` over `range(quantity + 1)`: the last line varies fastest.
  function Vectors(items: seq<Item>): seq<Counts> {
    if items == [] then [[]] else Prefixed(items[0].quantity, Vectors(items[1..]))
  }

  // Every vector of `rest` after 0, then after 1, ..., then after `most`.
  function Prefixed(most: nat, rest: seq<Counts>): seq<Counts> {
    (if most == 0 then [] else Prefixed(most - 1, rest)) + seq(|rest|, i requires 0 <= i < |rest| => [most] + rest[i])
  }

  function Worth(items: seq<Item>, counts: Counts): nat
    requires |counts| == |items|
  {
    if items == [] then 0 else counts[0] * items[0].unitPrice + Worth(items[1..], counts[1..])
  }

  function Units(counts: Counts): nat {
    if counts == [] then 0 else counts[0] + Units(counts[1..])
  }

  // Whole units within the order's quantities.
  predicate Fits(items: seq<Item>, counts: Counts) {
    |counts| == |items| && forall i :: 0 <= i < |items| ==> counts[i] <= items[i].quantity
  }

  predicate Adds(items: seq<Item>, amount: int, counts: Counts) { |counts| == |items| && Worth(items, counts) == amount }

  function Matches(items: seq<Item>, amount: int, vectors: seq<Counts>): seq<Counts> {
    if vectors == [] then []
    else (if Adds(items, amount, vectors[0]) then [vectors[0]] else []) + Matches(items, amount, vectors[1..])
  }

  // `min(matches, key=sum)`: the first of those with the fewest units.
  function Fewest(matches: seq<Counts>): Counts
    requires matches != []
  {
    if |matches| == 1 then matches[0]
    else
      var best := Fewest(matches[1..]);
      if Units(best) < Units(matches[0]) then best else matches[0]
  }

  // The lines with at least one unit.
  function Chosen(items: seq<Item>, counts: Counts): seq<(nat, Item)>
    requires |counts| == |items|
  {
    if items == [] then []
    else (if counts[0] > 0 then [(counts[0], items[0])] else []) + Chosen(items[1..], counts[1..])
  }

  function Best(items: seq<Item>, amount: int): Option<Counts> {
    var matches := Matches(items, amount, Vectors(items));
    if matches == [] then None else Some(Fewest(matches))
  }

  function Reconcile(items: seq<Item>, amount: int): Option<seq<(nat, Item)>> {
    match Best(items, amount)
    case None => None
    case Some(counts) => if |counts| == |items| then Some(Chosen(items, counts)) else None
  }

  // ------------------------------------------------------------- the enumeration

  lemma {:induction false} PrefixedHolds(most: nat, rest: seq<Counts>, v: Counts)
    ensures v in Prefixed(most, rest) <==> |v| > 0 && v[0] <= most && v[1..] in rest
  {
    var row := seq(|rest|, i requires 0 <= i < |rest| => [most] + rest[i]);
    if v in row {
      var i :| 0 <= i < |row| && row[i] == v;
      assert v[1..] == rest[i];
    }
    if |v| > 0 && v[0] == most && v[1..] in rest {
      var i :| 0 <= i < |rest| && rest[i] == v[1..];
      assert row[i] == v;
    }
    if most > 0 {
      PrefixedHolds(most - 1, rest, v);
    }
  }

  lemma {:induction false} VectorsAreAll(items: seq<Item>, v: Counts)
    ensures v in Vectors(items) <==> Fits(items, v)
  {
    if items != [] {
      PrefixedHolds(items[0].quantity, Vectors(items[1..]), v);
      if |v| > 0 {
        VectorsAreAll(items[1..], v[1..]);
        if Fits(items[1..], v[1..]) && v[0] <= items[0].quantity {
          forall i | 0 <= i < |items| ensures v[i] <= items[i].quantity {
            assert i > 0 ==> v[i] == v[1..][i - 1] && items[i] == items[1..][i - 1];
          }
        }
      }
    }
  }

  lemma {:induction false} MatchesAre(items: seq<Item>, amount: int, vectors: seq<Counts>, v: Counts)
    ensures v in Matches(items, amount, vectors) <==> v in vectors && Adds(items, amount, v)
  {
    if vectors != [] {
      MatchesAre(items, amount, vectors[1..], v);
      assert vectors == [vectors[0]] + vectors[1..];
    }
  }

  lemma {:induction false} FewestIs(matches: seq<Counts>)
    requires matches != []
    ensures Fewest(matches) in matches
    ensures forall v :: v in matches ==> Units(Fewest(matches)) <= Units(v)
  {
    if |matches| > 1 {
      FewestIs(matches[1..]);
      assert matches == [matches[0]] + matches[1..];
    }
  }

  function Value(lines: seq<(nat, Item)>): nat {
    if lines == [] then 0 else lines[0].0 * lines[0].1.unitPrice + Value(lines[1..])
  }

  function Pieces(lines: seq<(nat, Item)>): nat {
    if lines == [] then 0 else lines[0].0 + Pieces(lines[1..])
  }

  lemma {:induction false} ChosenIsWorth(items: seq<Item>, counts: Counts)
    requires Fits(items, counts)
    ensures var lines := Chosen(items, counts);
            && Value(lines) == Worth(items, counts) && Pieces(lines) == Units(counts)
            && forall l :: l in lines ==> 0 < l.0 <= l.1.quantity && l.1 in items
  {
    ChosenAdds(items, counts);
    forall l | l in Chosen(items, counts) ensures 0 < l.0 <= l.1.quantity && l.1 in items {
      ChosenWithin(items, counts, l);
    }
  }

  lemma {:induction false} ChosenAdds(items: seq<Item>, counts: Counts)
    requires |counts| == |items|
    ensures Value(Chosen(items, counts)) == Worth(items, counts) && Pieces(Chosen(items, counts)) == Units(counts)
  {
    if items != [] {
      ChosenAdds(items[1..], counts[1..]);
      var rest := Chosen(items[1..], counts[1..]);
      if counts[0] > 0 {
        assert Chosen(items, counts)[1..] == rest;
      } else {
        assert Chosen(items, counts) == rest;
      }
    }
  }

  lemma {:induction false} ChosenWithin(items: seq<Item>, counts: Counts, l: (nat, Item))
    requires Fits(items, counts) && l in Chosen(items, counts)
    ensures 0 < l.0 <= l.1.quantity && l.1 in items
  {
    if !(counts[0] > 0 && l == (counts[0], items[0])) {
      ChosenWithin(items[1..], counts[1..], l);
      assert items == [items[0]] + items[1..];
    }
  }

  // Nothing is offered exactly when no whole units within the order's quantities make up the amount;
  // otherwise what is offered does make it up, within the quantities, with as few units as any.
  lemma {:induction false} ReconcileIsExact(items: seq<Item>, amount: int)
    ensures Reconcile(items, amount).None? <==> forall v :: Fits(items, v) ==> Worth(items, v) != amount
    ensures match Reconcile(items, amount)
            case None => true
            case Some(lines) =>
              && Value(lines) == amount
              && (forall l :: l in lines ==> 0 < l.0 <= l.1.quantity && l.1 in items)
              && forall v :: Fits(items, v) && Worth(items, v) == amount ==> Pieces(lines) <= Units(v)
  {
    var vectors := Vectors(items);
    var matches := Matches(items, amount, vectors);
    forall v ensures v in matches <==> Fits(items, v) && Worth(items, v) == amount {
      VectorsAreAll(items, v);
      MatchesAre(items, amount, vectors, v);
    }
    if matches != [] {
      FewestIs(matches);
      ChosenIsWorth(items, Fewest(matches));
      assert Fits(items, Fewest(matches));
    }
  }

  // -------------------------------------------------------- which of equals, and how

  // The first line that differs has fewer units in `a`.
  predicate Before(a: Counts, b: Counts) {
    a != [] && b != [] && (a[0] < b[0] || (a[0] == b[0] && Before(a[1..], b[1..])))
  }

  ghost predicate Ascending(vectors: seq<Counts>) { forall i, j :: 0 <= i < j < |vectors| ==> Before(vectors[i], vectors[j]) }

  lemma {:induction false} AscendingConcat(a: seq<Counts>, b: seq<Counts>)
    requires Ascending(a) && Ascending(b) && forall i, j :: 0 <= i < |a| && 0 <= j < |b| ==> Before(a[i], b[j])
    ensures Ascending(a + b)
  {
    hide Before;
  }

  lemma {:induction false} RowAscends(most: nat, rest: seq<Counts>, row: seq<Counts>)
    requires Ascending(rest) && row == seq(|rest|, i requires 0 <= i < |rest| => [most] + rest[i])
    ensures Ascending(row)
  {
    hide Before;
    forall i, j | 0 <= i < j < |row| ensures Before(row[i], row[j]) {
      SameHead(most, rest[i], rest[j]);
    }
  }

  lemma {:induction false} PrefixedAscends(most: nat, rest: seq<Counts>)
    requires Ascending(rest)
    ensures Ascending(Prefixed(most, rest))
  {
    hide Before, Ascending;
    var row := seq(|rest|, i requires 0 <= i < |rest| => [most] + rest[i]);
    RowAscends(most, rest, row);
    if most == 0 {
      assert [] + row == row;
    } else {
      var lower := Prefixed(most - 1, rest);
      PrefixedAscends(most - 1, rest);
      forall i, j | 0 <= i < |lower| && 0 <= j < |row| ensures Before(lower[i], row[j]) {
        PrefixedHolds(most - 1, rest, lower[i]);
        SmallerHead(lower[i], row[j]);
      }
      AscendingConcat(lower, row);
    }
  }

  lemma {:induction false} SameHead(head: nat, a: Counts, b: Counts)
    requires Before(a, b)
    ensures Before([head] + a, [head] + b)
  {
    assert ([head] + a)[1..] == a && ([head] + b)[1..] == b;
  }

  lemma {:induction false} SmallerHead(a: Counts, b: Counts)
    requires a != [] && b != [] && a[0] < b[0]
    ensures Before(a, b)
  {
  }

  lemma {:induction false} VectorsAscend(items: seq<Item>)
    ensures Ascending(Vectors(items))
  {
    hide Before;
    if items != [] {
      VectorsAscend(items[1..]);
      PrefixedAscends(items[0].quantity, Vectors(items[1..]));
    }
  }

  lemma {:induction false} MatchesAscend(items: seq<Item>, amount: int, vectors: seq<Counts>)
    requires Ascending(vectors)
    ensures Ascending(Matches(items, amount, vectors))
  {
    hide Before, Adds;
    if vectors != [] {
      var rest := vectors[1..];
      MatchesAscend(items, amount, rest);
      forall v | v in Matches(items, amount, rest) ensures Before(vectors[0], v) {
        MatchesAre(items, amount, rest, v);
        var k :| 0 <= k < |rest| && rest[k] == v;
        assert vectors[k + 1] == v;
      }
    }
  }

  lemma {:induction false} FewestIsFirst(matches: seq<Counts>)
    requires matches != [] && Ascending(matches)
    ensures forall v :: v in matches && Units(v) == Units(Fewest(matches)) ==> v == Fewest(matches) || Before(Fewest(matches), v)
  {
    hide Before, Units;
    FewestIs(matches);
    if |matches| > 1 {
      var rest := matches[1..];
      FewestIs(rest);
      FewestIsFirst(rest);
      assert matches == [matches[0]] + rest;
      forall v | v in rest ensures Before(matches[0], v) {
        var k :| 0 <= k < |rest| && rest[k] == v;
        assert matches[k + 1] == v;
      }
    }
  }

  // Of several ways with as few units, the offer takes fewest of the first line, then of the second, and so
  // on: the one the enumeration reaches first.
  lemma {:induction false} OffersTheFirst(items: seq<Item>, amount: int, counts: Counts)
    requires Best(items, amount) == Some(counts)
    ensures Fits(items, counts) && Worth(items, counts) == amount
    ensures forall v :: Fits(items, v) && Worth(items, v) == amount && Units(v) == Units(counts) ==> v == counts || Before(counts, v)
  {
    hide Before;
    var vectors := Vectors(items);
    var matches := Matches(items, amount, vectors);
    forall v ensures v in matches <==> Fits(items, v) && Worth(items, v) == amount {
      VectorsAreAll(items, v);
      MatchesAre(items, amount, vectors, v);
    }
    VectorsAscend(items);
    MatchesAscend(items, amount, vectors);
    FewestIs(matches);
    FewestIsFirst(matches);
  }

  // The offer lists the lines as the order lists them, each by itself: with its count if it has one, or not
  // at all.
  lemma {:induction false} ChosenLineByLine(items: seq<Item>, counts: Counts, more: seq<Item>, others: Counts)
    requires |counts| == |items| && |others| == |more|
    ensures Chosen(items + more, counts + others) == Chosen(items, counts) + Chosen(more, others)
  {
    hide Chosen;
    if items == [] {
      assert items + more == more && counts + others == others;
      ChosenNothing();
      assert [] + Chosen(more, others) == Chosen(more, others);
    } else {
      ChosenLineByLine(items[1..], counts[1..], more, others);
      ChosenHead(items[0], counts[0], items[1..], counts[1..]);
      ChosenHead(items[0], counts[0], items[1..] + more, counts[1..] + others);
      assert items + more == [items[0]] + (items[1..] + more) && counts + others == [counts[0]] + (counts[1..] + others);
      assert items == [items[0]] + items[1..] && counts == [counts[0]] + counts[1..];
    }
  }

  lemma {:induction false} ChosenHead(item: Item, n: nat, items: seq<Item>, counts: Counts)
    requires |counts| == |items|
    ensures Chosen([item] + items, [n] + counts) == (if n > 0 then [(n, item)] else []) + Chosen(items, counts)
  {
    assert ([item] + items)[1..] == items && ([n] + counts)[1..] == counts;
  }

  lemma {:induction false} ChosenNothing()
    ensures Chosen([], []) == []
  {
  }
}
