/** The collection of saved phrases: a newest-first list of records, grown
    by saving the current phrase and shrunk by deleting every record with a
    given id. Ids are the decimal rendering of a clock reading, so two saves
    in the same millisecond share an id. */
module Collection {
  import opened Text

  /** NonsenseItem: id, text, timestamp and the provenance tag. */
  datatype NonsenseItem = NonsenseItem(id: string, text: string, timestamp: nat, kind: string)

  const Generated: string := "generated"

  /** The record saveNonsense builds from two clock readings, one for the id
      (Date.now().toString()) and one for the timestamp. Readings are
      non-negative milliseconds, i.e. the system clock is taken to be after
      1 January 1970. */
  function NewItem(text: string, idClock: nat, stampClock: nat): NonsenseItem
  {
    NonsenseItem(NatToString(idClock), text, stampClock, Generated)
  }

  /** Two new records share an id exactly when their id clock readings are
      equal. */
  lemma NewItemIds(t1: string, c1: nat, s1: nat, t2: string, c2: nat, s2: nat)
    ensures NewItem(t1, c1, s1).id == NewItem(t2, c2, s2).id <==> c1 == c2
  {
    NatToStringInjective(c1, c2);
  }

  /** saveNonsense: nothing when the current phrase is empty; otherwise the
      new record goes in front and the old list follows unchanged. */
  function Save(items: seq<NonsenseItem>, text: string, idClock: nat, stampClock: nat): (r: seq<NonsenseItem>)
    ensures text == [] ==> r == items
    ensures text != [] ==> |r| == |items| + 1 && r[1..] == items
    ensures text != [] ==> r[0].text == text && r[0].kind == "generated" &&
                           r[0].id == NatToString(idClock) && r[0].timestamp == stampClock
  {
    if text == [] then items else [NewItem(text, idClock, stampClock)] + items
  }

  /** The filter of deleteNonsense: keep the records whose id differs. */
  function Delete(items: seq<NonsenseItem>, id: string): (r: seq<NonsenseItem>)
    ensures forall x :: x in r <==> x in items && x.id != id
    ensures |r| <= |items|
  {
    if |items| == 0 then []
    else if items[0].id == id then Delete(items[1..], id)
    else [items[0]] + Delete(items[1..], id)
  }

  /** Number of records carrying the id. */
  function CountId(items: seq<NonsenseItem>, id: string): nat
  {
    if |items| == 0 then 0 else (if items[0].id == id then 1 else 0) + CountId(items[1..], id)
  }

  /** Deleting an id no record carries leaves the list as it was. */
  lemma {:induction false} DeleteAbsent(items: seq<NonsenseItem>, id: string)
    requires forall k :: 0 <= k < |items| ==> items[k].id != id
    ensures Delete(items, id) == items
  {
    if |items| > 0 {
      DeleteAbsent(items[1..], id);
      assert [items[0]] + items[1..] == items;
    }
  }

  /** Deleting twice is deleting once. */
  lemma DeleteIdempotent(items: seq<NonsenseItem>, id: string)
    ensures Delete(Delete(items, id), id) == Delete(items, id)
  {
  }

  /** The length drops by the number of records that carry the id. */
  lemma {:induction false} DeleteLength(items: seq<NonsenseItem>, id: string)
    ensures |Delete(items, id)| == |items| - CountId(items, id)
  {
    if |items| > 0 {
      DeleteLength(items[1..], id);
    }
  }

  /** Deleting distributes over concatenation, so the kept records stay in
      their original relative order. */
  lemma {:induction false} DeleteConcat(a: seq<NonsenseItem>, b: seq<NonsenseItem>, id: string)
    ensures Delete(a + b, id) == Delete(a, id) + Delete(b, id)
  {
    if |a| == 0 {
      assert a + b == b;
    } else {
      assert (a + b)[1..] == a[1..] + b;
      DeleteConcat(a[1..], b, id);
    }
  }

  /** When the new record's id is fresh, deleting it right after saving
      gives back the old list, one record shorter than after the save. */
  lemma SaveThenDelete(items: seq<NonsenseItem>, text: string, idClock: nat, stampClock: nat)
    requires text != []
    requires forall k :: 0 <= k < |items| ==> items[k].id != NatToString(idClock)
    ensures Delete(Save(items, text, idClock, stampClock), NatToString(idClock)) == items
    ensures |Delete(Save(items, text, idClock, stampClock), NatToString(idClock))| ==
            |Save(items, text, idClock, stampClock)| - 1
  {
    DeleteAbsent(items, NatToString(idClock));
    assert Save(items, text, idClock, stampClock)[1..] == items;
  }

  /** Two saves onto any collection with the same id clock reading (the
      timestamps may differ) put two records with one id in front, and
      deleting that id removes both, leaving the old collection's deletion. */
  lemma SameMillisecondSaves(items0: seq<NonsenseItem>, a: string, b: string, clock: nat, s1: nat, s2: nat)
    requires a != [] && b != []
    ensures var items := Save(Save(items0, a, clock, s1), b, clock, s2);
      |items| == |items0| + 2 && items[0].id == items[1].id &&
      Delete(items, NatToString(clock)) == Delete(items0, NatToString(clock))
  {
    var i1 := Save(items0, a, clock, s1);
    var items := Save(i1, b, clock, s2);
    assert items == [items[0]] + i1;
    assert i1 == [i1[0]] + items0;
  }
}
