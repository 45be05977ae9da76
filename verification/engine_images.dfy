/** An engine may know orders by ids of its own and prices at an offset; matching does not
    notice: matching the image of a book is the image of matching the book. */
module EngineImages {
  import opened Basics
  import opened Contract

  function ImageOf(o: Order, name: nat -> nat, shift: int): Order {
    Order(name(o.id), o.side, o.price + shift, o.qty)
  }

  function Image(b: seq<Order>, name: nat -> nat, shift: int): (r: seq<Order>)
    ensures |r| == |b|
  {
    seq(|b|, i requires 0 <= i < |b| => ImageOf(b[i], name, shift))
  }

  function FillImage(f: Fill, name: nat -> nat, shift: int): Fill {
    Fill(name(f.maker), f.price + shift, f.qty)
  }

  function FillsImage(fills: seq<Fill>, name: nat -> nat, shift: int): (r: seq<Fill>)
    ensures |r| == |fills|
  {
    seq(|fills|, i requires 0 <= i < |fills| => FillImage(fills[i], name, shift))
  }

  lemma {:induction false} BestMakerImage(b: seq<Order>, taker: Side, limit: int, name: nat -> nat, shift: int)
    ensures BestMaker(Image(b, name, shift), taker, limit + shift) == BestMaker(b, taker, limit)
  {
    if b != [] {
      var n := |b| - 1;
      BestMakerImage(b[..n], taker, limit, name, shift);
      assert Image(b, name, shift)[..n] == Image(b[..n], name, shift);
    }
  }

  lemma TakeImage(b: seq<Order>, i: nat, q: nat, name: nat -> nat, shift: int)
    requires i < |b| && q <= b[i].qty
    ensures Take(Image(b, name, shift), i, q) == Image(Take(b, i, q), name, shift)
  {}

  /** Matching the image of a book gives the image of the fills, of the book and the same
      rest. */
  lemma {:induction false} MatchImage(b: seq<Order>, taker: Side, limit: int, qty: nat, name: nat -> nat, shift: int)
    ensures var m := Match(b, taker, limit, qty);
            Match(Image(b, name, shift), taker, limit + shift, qty)
            == Outcome(FillsImage(m.fills, name, shift), Image(m.book, name, shift), m.left)
    decreases |b| + qty
  {
    hide Take, Image, FillsImage;
    BestMakerImage(b, taker, limit, name, shift);
    var best := BestMaker(b, taker, limit);
    if qty == 0 || best.None? {
      NoFillsImage(name, shift);
    } else {
      var i := best.value;
      var q := Min(b[i].qty, qty);
      ImageAt(b, i, name, shift);
      TakeImage(b, i, q, name, shift);
      TakeShrinks(b, i, q);
      MatchImage(Take(b, i, q), taker, limit, qty - q, name, shift);
      FillsImageFront(Fill(b[i].id, b[i].price, q), Match(Take(b, i, q), taker, limit, qty - q).fills, name, shift);
    }
  }

  lemma TakeShrinks(b: seq<Order>, i: nat, q: nat)
    requires i < |b| && q <= b[i].qty
    ensures |Take(b, i, q)| <= |b| && (q == b[i].qty ==> |Take(b, i, q)| < |b|)
  {}

  lemma ImageAt(b: seq<Order>, i: nat, name: nat -> nat, shift: int)
    requires i < |b|
    ensures Image(b, name, shift)[i] == ImageOf(b[i], name, shift)
  {}

  lemma NoFillsImage(name: nat -> nat, shift: int)
    ensures FillsImage([], name, shift) == []
  {}

  lemma FillsImageAt(fills: seq<Fill>, k: nat, name: nat -> nat, shift: int)
    requires k < |fills|
    ensures FillsImage(fills, name, shift)[k] == FillImage(fills[k], name, shift)
  {}

  lemma EmptyImage(name: nat -> nat, shift: int)
    ensures Image([], name, shift) == []
  {}

  lemma FillsImageFront(f: Fill, fills: seq<Fill>, name: nat -> nat, shift: int)
    ensures FillsImage([f] + fills, name, shift) == [FillImage(f, name, shift)] + FillsImage(fills, name, shift)
  {}

  lemma ImageAppend(b: seq<Order>, o: Order, name: nat -> nat, shift: int)
    ensures Image(b + [o], name, shift) == Image(b, name, shift) + [ImageOf(o, name, shift)]
  {}

  lemma ImageRemove(b: seq<Order>, i: nat, name: nat -> nat, shift: int)
    requires i < |b|
    ensures RemoveAt(Image(b, name, shift), i) == Image(RemoveAt(b, i), name, shift)
  {}

  /** Renaming ids that do not occur changes nothing. */
  lemma ImageSame(b: seq<Order>, name: nat -> nat, other: nat -> nat, shift: int)
    requires forall i | 0 <= i < |b| :: name(b[i].id) == other(b[i].id)
    ensures Image(b, name, shift) == Image(b, other, shift)
  {}

  lemma EnterImage(b: seq<Order>, o: Order, ioc: bool, name: nat -> nat, shift: int)
    ensures var e := Enter(b, o, ioc);
            Enter(Image(b, name, shift), ImageOf(o, name, shift), ioc)
            == Outcome(FillsImage(e.fills, name, shift), Image(e.book, name, shift), e.left)
  {
    hide Match, Image, FillsImage;
    MatchImage(b, o.side, o.price, o.qty, name, shift);
    var m := Match(b, o.side, o.price, o.qty);
    ImageAppend(m.book, o.(qty := m.left), name, shift);
  }
}
