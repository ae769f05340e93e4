/** The dashboard: the stored list (or the samples when nothing is stored),
    the search box, the counters and the "resend" action. */
module Dashboard {
  import opened Records
  import opened Text

  /** The stored list when it has entries, otherwise the samples. */
  function LoadList(saved: seq<StoredPrescription>): (r: seq<StoredPrescription>)
    ensures r != []
    ensures saved != [] ==> r == saved
    ensures saved == [] ==> r == MockDashboardData
  {
    if |saved| > 0 then saved else MockDashboardData
  }

  // ---------------------------------------------------------------------
  // Search
  // ---------------------------------------------------------------------

  /** The name contains the term, ignoring case, or the phone contains the
      term as typed. */
  predicate Matches(p: StoredPrescription, term: string)
    ensures term == "" ==> Matches(p, term)
  {
    assert term == "" ==> Lower(term) == "";
    ContainsEmpty(Lower(p.data.patientName));
    Contains(Lower(p.data.patientName), Lower(term)) || Contains(p.data.contactPhone, term)
  }

  /** The records that match the search term, in list order. */
  function Search(rs: seq<StoredPrescription>, term: string): (r: seq<StoredPrescription>)
    ensures |r| <= |rs|
    ensures forall i :: 0 <= i < |r| ==> Matches(r[i], term)
  {
    if rs == [] then []
    else if Matches(rs[0], term) then [rs[0]] + Search(rs[1..], term)
    else Search(rs[1..], term)
  }

  /** a is b with some elements left out, the rest in the same order. */
  predicate IsSubsequence<T(==)>(a: seq<T>, b: seq<T>)
    decreases |b|
  {
    a == [] || (b != [] && ((a[0] == b[0] && IsSubsequence(a[1..], b[1..])) || IsSubsequence(a, b[1..])))
  }

  /** The search result keeps the order of the list. */
  lemma {:induction false} SearchSubsequence(rs: seq<StoredPrescription>, term: string)
    ensures IsSubsequence(Search(rs, term), rs)
  {
    if rs != [] {
      SearchSubsequence(rs[1..], term);
      var r := Search(rs, term);
      if Matches(rs[0], term) {
        assert r[0] == rs[0] && r[1..] == Search(rs[1..], term);
      }
    }
  }

  /** A record is in the result exactly when it is in the list and matches. */
  lemma {:induction false} SearchMembership(rs: seq<StoredPrescription>, term: string, p: StoredPrescription)
    ensures p in Search(rs, term) <==> p in rs && Matches(p, term)
  {
    if rs != [] {
      SearchMembership(rs[1..], term, p);
      assert rs == [rs[0]] + rs[1..];
    }
  }

  /** The search keeps every matching record as often as the list holds it,
      and no other record. */
  lemma {:induction false} SearchMultiset(rs: seq<StoredPrescription>, term: string, p: StoredPrescription)
    ensures multiset(Search(rs, term))[p] == if Matches(p, term) then multiset(rs)[p] else 0
  {
    if rs != [] {
      SearchMultiset(rs[1..], term, p);
      assert rs == [rs[0]] + rs[1..];
    }
  }

  /** When every record matches, the search keeps the whole list. */
  lemma {:induction false} SearchKeepsAll(rs: seq<StoredPrescription>, term: string)
    requires forall i :: 0 <= i < |rs| ==> Matches(rs[i], term)
    ensures Search(rs, term) == rs
  {
    if rs != [] {
      SearchKeepsAll(rs[1..], term);
      assert [rs[0]] + rs[1..] == rs;
    }
  }

  /** An empty search term shows every record. */
  lemma SearchEmptyTerm(rs: seq<StoredPrescription>)
    ensures Search(rs, "") == rs
  {
    assert Lower("") == "";
    forall i | 0 <= i < |rs| ensures Matches(rs[i], "") {
      ContainsEmpty(Lower(rs[i].data.patientName));
    }
    SearchKeepsAll(rs, "");
  }

  // ---------------------------------------------------------------------
  // Resend and the counters
  // ---------------------------------------------------------------------

  /** One record after resending `id`: only its status can change, and it
      is Sent afterwards exactly when it was Sent or carries the id. */
  function MarkOne(p: StoredPrescription, id: string): (r: StoredPrescription)
    ensures r.data == p.data && r.id == p.id && r.createdAt == p.createdAt
    ensures r.status == Sent <==> p.status == Sent || p.id == id
  {
    if p.id == id then p.(status := Sent) else p
  }

  /** The list after resending record `id`: that record (every record with
      that id) becomes Sent. */
  function MarkSent(rs: seq<StoredPrescription>, id: string): (r: seq<StoredPrescription>)
    ensures |r| == |rs|
  {
    if rs == [] then [] else [MarkOne(rs[0], id)] + MarkSent(rs[1..], id)
  }

  /** Resending changes only the status of the records with the id, and
      keeps the length and the order. */
  lemma {:induction false} MarkSentAt(rs: seq<StoredPrescription>, id: string, i: int)
    requires 0 <= i < |rs|
    ensures MarkSent(rs, id)[i] == if rs[i].id == id then rs[i].(status := Sent) else rs[i]
  {
    if i > 0 {
      MarkSentAt(rs[1..], id, i - 1);
    }
  }

  /** Resending the same record twice is resending it once. */
  lemma {:induction false} MarkSentIdempotent(rs: seq<StoredPrescription>, id: string)
    ensures MarkSent(MarkSent(rs, id), id) == MarkSent(rs, id)
  {
    if rs != [] {
      var r := MarkSent(rs, id);
      assert r[0] == MarkOne(rs[0], id) && r[1..] == MarkSent(rs[1..], id);
      MarkSentIdempotent(rs[1..], id);
    }
  }

  /** `prescriptions.filter(p => p.status === "Draft")`: exactly the Draft
      records of the list. */
  function Drafts(rs: seq<StoredPrescription>): (r: seq<StoredPrescription>)
    ensures |r| <= |rs|
    ensures forall i :: 0 <= i < |r| ==> r[i].status == Draft
    ensures forall p :: p in r <==> p in rs && p.status == Draft
  {
    if rs == [] then []
    else
      assert rs == [rs[0]] + rs[1..];
      if rs[0].status == Draft then [rs[0]] + Drafts(rs[1..])
      else Drafts(rs[1..])
  }

  /** The Draft counter: never more than the list holds. */
  function DraftCount(rs: seq<StoredPrescription>): (n: nat)
    ensures n <= |rs|
  {
    |Drafts(rs)|
  }

  /** The Draft counter is zero exactly when every record has been sent. */
  lemma DraftCountZero(rs: seq<StoredPrescription>)
    ensures DraftCount(rs) == 0 <==> forall i :: 0 <= i < |rs| ==> rs[i].status == Sent
  {
    if i :| 0 <= i < |rs| && rs[i].status == Draft {
      assert rs[i] in Drafts(rs);
    }
    if |Drafts(rs)| > 0 {
      var p := Drafts(rs)[0];
      assert p in rs && p.status == Draft;
    }
  }

  /** The positions of the Draft records in the list. */
  ghost function DraftIndices(rs: seq<StoredPrescription>): set<int> {
    set i | 0 <= i < |rs| && rs[i].status == Draft
  }

  /** What the two counters on the dashboard show. */
  datatype Stats = Stats(total: nat, drafts: nat)

  /** Total is the length of the list; Drafts is the number of positions
      that hold a Draft record. */
  function Counters(rs: seq<StoredPrescription>): (s: Stats)
    ensures s.total == |rs|
    ensures s.drafts == |DraftIndices(rs)|
    ensures s.drafts <= s.total
  {
    DraftCountIndices(rs);
    Stats(|rs|, DraftCount(rs))
  }

  /** Appending a record adds one to the draft counter exactly when the
      record is a draft. */
  lemma {:induction false} DraftCountAppend(rs: seq<StoredPrescription>, p: StoredPrescription)
    ensures DraftCount(rs + [p]) == DraftCount(rs) + if p.status == Draft then 1 else 0
  {
    if rs == [] {
      assert rs + [p] == [p];
    } else {
      assert (rs + [p])[0] == rs[0] && (rs + [p])[1..] == rs[1..] + [p];
      DraftCountAppend(rs[1..], p);
    }
  }

  /** The Draft counter is the number of positions holding a Draft. */
  lemma {:induction false} DraftCountIndices(rs: seq<StoredPrescription>)
    ensures DraftCount(rs) == |DraftIndices(rs)|
    decreases |rs|
  {
    if rs == [] {
      assert DraftIndices(rs) == {};
    } else {
      var init, p := rs[..|rs| - 1], rs[|rs| - 1];
      assert init + [p] == rs;
      DraftCountIndices(init);
      DraftCountAppend(init, p);
      DraftIndicesAppend(init, p);
    }
  }

  lemma DraftIndicesAppend(rs: seq<StoredPrescription>, p: StoredPrescription)
    ensures DraftIndices(rs + [p]) == DraftIndices(rs) + if p.status == Draft then {|rs|} else {}
  {
    var big, small := DraftIndices(rs + [p]), DraftIndices(rs);
    forall i ensures i in big <==> i in small || (i == |rs| && p.status == Draft) {
      if 0 <= i < |rs| {
        assert (rs + [p])[i] == rs[i];
      }
    }
  }

  /** Resending never raises the draft counter, and leaves it as it was
      exactly when no record with that id was a draft. */
  lemma {:induction false} DraftCountMarkSent(rs: seq<StoredPrescription>, id: string)
    ensures DraftCount(MarkSent(rs, id)) <= DraftCount(rs)
    ensures DraftCount(MarkSent(rs, id)) == DraftCount(rs)
        <==> forall i :: 0 <= i < |rs| && rs[i].id == id ==> rs[i].status == Sent
  {
    if rs != [] {
      var r := MarkSent(rs, id);
      assert r[0] == MarkOne(rs[0], id) && r[1..] == MarkSent(rs[1..], id);
      DraftCountMarkSent(rs[1..], id);
      if forall i :: 0 <= i < |rs| && rs[i].id == id ==> rs[i].status == Sent {
        assert forall i :: 0 <= i < |rs[1..]| && rs[1..][i].id == id ==> rs[1..][i].status == Sent by {
          forall i | 0 <= i < |rs[1..]| && rs[1..][i].id == id ensures rs[1..][i].status == Sent {
            assert rs[1..][i] == rs[i + 1];
          }
        }
      } else {
        var k :| 0 <= k < |rs| && rs[k].id == id && rs[k].status != Sent;
        if k > 0 {
          assert rs[1..][k - 1] == rs[k];
        }
      }
    }
  }

  // ---------------------------------------------------------------------
  // The page state
  // ---------------------------------------------------------------------

  class DashboardView {
    var prescriptions: seq<StoredPrescription>
    var searchTerm: string
    var filtered: seq<StoredPrescription>

    /** The shown list is always the search over the whole list (the effect
        that re-runs whenever the term or the list changes). */
    ghost predicate Valid()
      reads this
    {
      filtered == Search(prescriptions, searchTerm)
    }

    /** Mounting loads the stored list, or the samples when it is empty, and
        shows all of it. */
    constructor Mount(saved: seq<StoredPrescription>)
      ensures prescriptions == LoadList(saved) && searchTerm == ""
      ensures filtered == prescriptions && Valid()
    {
      var all := LoadList(saved);
      prescriptions := all;
      searchTerm := "";
      filtered := all;
      SearchEmptyTerm(all);
    }

    method SetSearchTerm(term: string)
      modifies this
      ensures searchTerm == term && prescriptions == old(prescriptions)
      ensures filtered == Search(prescriptions, term) && Valid()
    {
      searchTerm := term;
      filtered := Search(prescriptions, term);
    }

    /** Marks record `id` as sent and writes the whole list back to the
        store. */
    method ResendWhatsApp(id: string, store: RecordStore)
      modifies this, store
      ensures prescriptions == MarkSent(old(prescriptions), id)
      ensures store.records == prescriptions
      ensures searchTerm == old(searchTerm) && Valid()
    {
      var updated := MarkSent(prescriptions, id);
      prescriptions := updated;
      store.records := updated;
      filtered := Search(updated, searchTerm);
    }
  }
}
