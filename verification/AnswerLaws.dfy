/** What the answers of a linearization mean, said about the calls alone: without a map, by looking for the last
    call that changed a key. */
module AnswerLaws {
  import opened Bytes
  import opened KvSpec
  import opened Chain
  import opened Linearizability

  /** The call stores something under the key. */
  predicate Stores(op: Op, k: CString) {
    op.Put? && op.key == k && op.value != []
  }

  predicate Changes(op: Op, k: CString) {
    Stores(op, k) || op == Del(k)
  }

  /** Call x is a put of the key, and before call y nothing else has changed the key since. */
  ghost predicate LastPut(order: seq<Entry>, x: nat, y: nat, k: CString) {
    x < y <= |order| && Stores(order[x].op, k) && forall z :: x < z < y ==> !Changes(order[z].op, k)
  }

  ghost predicate Present(order: seq<Entry>, y: nat, k: CString) {
    exists x: nat :: LastPut(order, x, y, k)
  }

  /** The keys that are there before call y. */
  ghost function PresentKeys(order: seq<Entry>, y: nat): set<CString>
    requires y <= |order|
  {
    set x | 0 <= x < y && order[x].op.Put? && Present(order, y, order[x].op.key) :: order[x].op.key
  }

  /** The right answer to call y. */
  ghost predicate RightAnswer(order: seq<Entry>, y: nat)
    requires y < |order|
  {
    var answer := order[y].answer;
    match order[y].op
    case Put(k, v) => answer == if v == [] then Failed else Done
    case Del(k) => answer == if Present(order, y, k) then Done else Missing
    case Get(k) =>
      && (!Present(order, y, k) ==> answer == Absent)
      && (forall x: nat :: LastPut(order, x, y, k) ==> answer == Found(order[x].op.value))
    case Size => answer == Count(|PresentKeys(order, y)|)
  }

  lemma LastPutLater(order: seq<Entry>, y: nat, k: CString)
    requires y < |order|
    ensures forall x: nat :: LastPut(order, x, y + 1, k) <==>
                               if Changes(order[y].op, k) then x == y && Stores(order[y].op, k) else LastPut(order, x, y, k)
  {
    forall x: nat
      ensures LastPut(order, x, y + 1, k) <==>
                if Changes(order[y].op, k) then x == y && Stores(order[y].op, k) else LastPut(order, x, y, k)
    {
      if x < y && LastPut(order, x, y, k) && !Changes(order[y].op, k) { assert LastPut(order, x, y + 1, k); }
      if LastPut(order, x, y + 1, k) && x < y { assert LastPut(order, x, y, k); }
    }
  }

  /** The map of the sequential user holds what the last puts have stored. */
  lemma {:induction false} StoreIsLastPut(order: seq<Entry>, y: nat, k: CString)
    requires y <= |order|
    ensures k in StoreAfter(order[..y]) <==> Present(order, y, k)
    ensures forall x: nat :: LastPut(order, x, y, k) ==> k in StoreAfter(order[..y]) && StoreAfter(order[..y])[k] == order[x].op.value
  {
    if y > 0 {
      hide LastPut;
      assert order[..y][..y - 1] == order[..y - 1];
      StoreIsLastPut(order, y - 1, k);
      LastPutLater(order, y - 1, k);
    }
  }

  lemma StoreHasPresentKeys(order: seq<Entry>, y: nat)
    requires y <= |order|
    ensures StoreAfter(order[..y]).Keys == PresentKeys(order, y)
  {
    hide StoreAfter;
    var m := StoreAfter(order[..y]);
    forall k: CString ensures k in m.Keys <==> k in PresentKeys(order, y) {
      StoreIsLastPut(order, y, k);
      if x: nat :| LastPut(order, x, y, k) { assert order[x].op.key == k; }
    }
  }

  /** The answer that the map gives is the right one, and no other is. */
  lemma ReplyIsRight(order: seq<Entry>, y: nat)
    requires y < |order|
    ensures order[y].answer == KvSpec.Reply(order[y].op, StoreAfter(order[..y])) <==> RightAnswer(order, y)
  {
    hide StoreAfter, LastPut, PresentKeys;
    StoreHasPresentKeys(order, y);
    var op := order[y].op;
    if op.Get? || op.Del? { StoreIsLastPut(order, y, op.key); }
    assert |StoreAfter(order[..y])| == |StoreAfter(order[..y]).Keys|;
  }

  ghost predicate AllRight(order: seq<Entry>) {
    forall y :: 0 <= y < |order| ==> RightAnswer(order, y)
  }

  /** An order is legal exactly when every answer in it is the right one. */
  lemma LegalIsRight(order: seq<Entry>)
    ensures Legal(order) <==> AllRight(order)
  {
    hide StoreAfter, RightAnswer, KvSpec.Reply;
    forall y | 0 <= y < |order|
      ensures order[y].answer == KvSpec.Reply(order[y].op, StoreAfter(order[..y])) <==> RightAnswer(order, y)
    {
      ReplyIsRight(order, y);
    }
  }

  /** A del says Done exactly when a get in its place would have found something, which is exactly when it
      changes the map; otherwise it says Missing. */
  lemma DelTells(k: CString, m: Store)
    ensures KvSpec.Reply(Del(k), m) == Done <==> KvSpec.Reply(Get(k), m).Found?
    ensures KvSpec.Reply(Del(k), m) == Done <==> After(Del(k), m) != m
    ensures KvSpec.Reply(Del(k), m) == Missing <==> KvSpec.Reply(Get(k), m) == Absent
  {
    if k in m { assert k !in After(Del(k), m); } else { assert After(Del(k), m) == m; }
  }

  /** So in an order: with a get of the key just before it, a del is answered Done exactly when the get found
      something, and a get just after it finds nothing. */
  lemma DelAndGets(order: seq<Entry>, y: nat, k: CString)
    requires Legal(order) && 0 < y < |order| && order[y].op == Del(k)
    ensures order[y - 1].op == Get(k) ==> (order[y].answer == Done <==> order[y - 1].answer.Found?)
    ensures order[y - 1].op == Get(k) ==> (order[y].answer == Missing <==> order[y - 1].answer == Absent)
    ensures y + 1 < |order| && order[y + 1].op == Get(k) ==> order[y + 1].answer == Absent
  {
    var m := StoreAfter(order[..y]);
    DelTells(k, m);
    assert order[..y][..y - 1] == order[..y - 1];
    if y + 1 < |order| { assert order[..y + 1][..y] == order[..y]; }
  }
}
