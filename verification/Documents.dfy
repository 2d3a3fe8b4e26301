/** A collaborative document, abstracted to the set of changes it contains. */
module Documents {

  /** One change a client made: content it inserted, or a deletion. */
  datatype Change = Insert(client: nat, clock: nat) | Delete(client: nat, target: nat)

  /** An update is the changes it carries; applying it is set union. */
  type Update = set<Change>

  /** Everything some updates carry. */
  function Carried(updates: seq<Update>): set<Change>
  {
    if updates == [] then {} else updates[0] + Carried(updates[1..])
  }

  lemma {:induction false} CarriedIsUnion(updates: seq<Update>, c: Change)
    ensures c in Carried(updates) <==> exists u :: u in updates && c in u
  {
    if updates != [] {
      CarriedIsUnion(updates[1..], c);
      assert updates == [updates[0]] + updates[1..];
    }
  }

  lemma {:induction false} CarriedAppend(a: seq<Update>, b: seq<Update>)
    ensures Carried(a + b) == Carried(a) + Carried(b)
  {
    if a == [] {
      assert a + b == b;
    } else {
      assert (a + b)[1..] == a[1..] + b;
      CarriedAppend(a[1..], b);
    }
  }
}
