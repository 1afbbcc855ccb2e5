/** The conversation archive: an insertion-ordered list of saved conversations, searched by id.
    Ids are not guaranteed to be distinct, so every search takes the first match. */
module Archive {
  import opened Wrappers
  import opened Chat

  /** One saved conversation, `{"id": ..., "timestamp": ..., "messages": [...]}`. */
  datatype Conversation = Conversation(id: string, timestamp: string, messages: seq<Message>)

  /** Some entry of `convs` carries `id`. */
  predicate HasId(convs: seq<Conversation>, id: string) {
    exists j :: 0 <= j < |convs| && convs[j].id == id
  }

  /** No two entries of `convs` share an id. */
  ghost predicate UniqueIds(convs: seq<Conversation>) {
    forall i, j :: 0 <= i < j < |convs| ==> convs[i].id != convs[j].id
  }

  /** The position of the first entry with `id`, or None when no entry has it. */
  function FirstIndexOf(convs: seq<Conversation>, id: string): (r: Option<nat>)
    ensures r.Some? ==> r.value < |convs| && convs[r.value].id == id
    ensures r.Some? ==> forall j :: 0 <= j < r.value ==> convs[j].id != id
    ensures r.None? <==> !HasId(convs, id)
  {
    if convs == [] then None
    else if convs[0].id == id then Some(0)
    else match FirstIndexOf(convs[1..], id)
      case None => None
      case Some(k) => Some(k + 1)
  }

  /** The linear search by id that both saving and loading perform, stopping at the first match. */
  method FindById(convs: seq<Conversation>, id: string) returns (found: Option<nat>)
    ensures found == FirstIndexOf(convs, id)
  {
    found := None;
    var i := 0;
    while i < |convs|
      invariant 0 <= i <= |convs|
      invariant forall j :: 0 <= j < i ==> convs[j].id != id
    {
      if convs[i].id == id {
        found := Some(i);
        break;
      }
      i := i + 1;
    }
  }

  /** A search for the id of an entry appended to an archive that did not hold that id finds the
      new last entry. */
  lemma FirstIndexOfAppended(convs: seq<Conversation>, c: Conversation)
    requires !HasId(convs, c.id)
    ensures FirstIndexOf(convs + [c], c.id) == Some(|convs|)
  {
    assert (convs + [c])[|convs|].id == c.id;
    assert forall j :: 0 <= j < |convs| ==> (convs + [c])[j] == convs[j];
  }

  /** Replacing the first match for `c.id` by `c` leaves it the first match. */
  lemma FirstIndexOfReplaced(convs: seq<Conversation>, i: nat, c: Conversation)
    requires FirstIndexOf(convs, c.id) == Some(i)
    ensures FirstIndexOf(convs[i := c], c.id) == Some(i)
  {
    assert convs[i := c][i].id == c.id;
  }

  /** The entries of `convs` whose id differs from `id`, in their original order
      (the list comprehension behind "Delete Current"). */
  function RemoveById(convs: seq<Conversation>, id: string): (r: seq<Conversation>)
    ensures |r| <= |convs|
    ensures forall c :: c in r ==> c in convs && c.id != id
    ensures forall c :: c in convs && c.id != id ==> c in r
  {
    if convs == [] then []
    else if convs[0].id == id then RemoveById(convs[1..], id)
    else [convs[0]] + RemoveById(convs[1..], id)
  }

  /** Filtering commutes with concatenation: what is kept stays in its original order. */
  lemma {:induction false} RemoveByIdConcat(a: seq<Conversation>, b: seq<Conversation>, id: string)
    ensures RemoveById(a + b, id) == RemoveById(a, id) + RemoveById(b, id)
  {
    if a == [] {
      assert a + b == b;
    } else {
      assert (a + b)[1..] == a[1..] + b;
      RemoveByIdConcat(a[1..], b, id);
    }
  }

  /** Removing an id no entry carries leaves the archive as it was. */
  lemma {:induction false} RemoveByIdAbsent(convs: seq<Conversation>, id: string)
    requires !HasId(convs, id)
    ensures RemoveById(convs, id) == convs
  {
    if convs != [] {
      assert convs[0].id != id;
      assert !HasId(convs[1..], id) by {
        forall j | 0 <= j < |convs[1..]| ensures convs[1..][j].id != id {
          assert convs[1..][j] == convs[j + 1];
        }
      }
      RemoveByIdAbsent(convs[1..], id);
      assert [convs[0]] + convs[1..] == convs;
    }
  }

  /** The slice `convs[lo..hi]` holds no entry with `id` when no position in it does. */
  lemma NoIdInSlice(convs: seq<Conversation>, lo: nat, hi: nat, id: string)
    requires lo <= hi <= |convs|
    requires forall j :: lo <= j < hi ==> convs[j].id != id
    ensures !HasId(convs[lo..hi], id)
  {
    var part := convs[lo..hi];
    forall j | 0 <= j < |part| ensures part[j].id != id {
      assert part[j] == convs[lo + j];
    }
  }

  /** With distinct ids, removing the id of entry `i` cuts exactly that entry out. */
  lemma RemoveByIdSplice(convs: seq<Conversation>, i: nat)
    requires UniqueIds(convs) && i < |convs|
    ensures RemoveById(convs, convs[i].id) == convs[..i] + convs[i + 1..]
  {
    var id := convs[i].id;
    var before, after := convs[..i], convs[i + 1..];
    var rest := [convs[i]] + after;
    assert convs == before + rest;
    assert rest[1..] == after;
    assert RemoveById(rest, id) == RemoveById(after, id);
    NoIdInSlice(convs, 0, i, id);
    NoIdInSlice(convs, i + 1, |convs|, id);
    assert convs[0..i] == before;
    RemoveByIdAbsent(before, id);
    RemoveByIdAbsent(after, id);
    RemoveByIdConcat(before, rest, id);
  }

  /** Filtering cannot create a duplicate id. */
  lemma {:induction false} RemoveByIdKeepsUnique(convs: seq<Conversation>, id: string)
    requires UniqueIds(convs)
    ensures UniqueIds(RemoveById(convs, id))
  {
    if convs != [] {
      var rest := convs[1..];
      assert UniqueIds(rest) by {
        forall i, j | 0 <= i < j < |rest| ensures rest[i].id != rest[j].id {
          assert rest[i] == convs[i + 1] && rest[j] == convs[j + 1];
        }
      }
      RemoveByIdKeepsUnique(rest, id);
      var r := RemoveById(rest, id);
      if convs[0].id != id {
        forall j | 0 <= j < |r| ensures r[j].id != convs[0].id {
          assert r[j] in rest;
          var k :| 0 <= k < |rest| && rest[k] == r[j];
          assert rest[k] == convs[k + 1];
        }
        assert RemoveById(convs, id) == [convs[0]] + r;
      }
    }
  }

  /** The entries of `s` in reverse order (Python's `reversed`). */
  function Reversed(s: seq<Conversation>): (r: seq<Conversation>)
    ensures |r| == |s|
  {
    if s == [] then [] else Reversed(s[1..]) + [s[0]]
  }

  /** Entry `k` of the reversed list is entry `|s| - 1 - k` of the original. */
  lemma {:induction false} ReversedAt(s: seq<Conversation>, k: nat)
    requires k < |s|
    ensures Reversed(s)[k] == s[|s| - 1 - k]
  {
    if k < |s| - 1 {
      ReversedAt(s[1..], k);
    }
  }

  /** How many conversations the sidebar lists. */
  const RecentLimit: nat := 10

  /** The sidebar list: the last ten conversations, newest first (`reversed(conversations[-10:])`). */
  function Recent(convs: seq<Conversation>): (r: seq<Conversation>)
    ensures |r| == if |convs| <= RecentLimit then |convs| else RecentLimit
    ensures forall k :: 0 <= k < |r| ==> r[k] == convs[|convs| - 1 - k]
  {
    var start := if |convs| <= RecentLimit then 0 else |convs| - RecentLimit;
    var tail := convs[start..];
    var r := Reversed(tail);
    assert forall k :: 0 <= k < |r| ==> r[k] == convs[|convs| - 1 - k] by {
      forall k | 0 <= k < |r| ensures r[k] == convs[|convs| - 1 - k] {
        ReversedAt(tail, k);
      }
    }
    r
  }
}
