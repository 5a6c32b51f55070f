/** The browser-side store of job-description analyses: one storage entry holds the
    records of every user, newest first, and every read filters by the owner's e-mail. */
module AnalysisStore {
  import opened Common
  import opened Text

  /** One stored analysis as `add` builds it. `id` and `timestamp` come from the clock. */
  datatype Record = Record(
    id: int,
    userEmail: string,
    timestamp: string,
    confidence: Option<Confidence>,
    shapExplanation: string,
    jobDescription: string)

  /** The fields of `analysisData` that `add` copies into the new record. */
  datatype AnalysisData = AnalysisData(confidence: Option<Confidence>, shapExplanation: string, jobDescription: string)

  /** Why `add` throws: the stored entry does not parse, or no owner was given. */
  datatype AddError = Unparseable | MissingEmail

  /** What `getStats` returns, with the percentages as exact quotients; `genuine` is its `real` count. */
  datatype Stats = Stats(total: nat, fake: nat, genuine: nat, fakePercentage: real, realPercentage: real)

  /** The callbacks the store hands to `filter` and `find`. */
  datatype Criterion =
    | OwnedBy(email: string)      // analysis.userEmail === userEmail
    | NotOwnedBy(email: string)   // analysis.userEmail !== userEmail
    | HasId(id: int)              // analysis.id === id
    | IdOtherThan(id: int)        // analysis.id !== id
    | LabelIs(word: string)       // a.confidence?.label?.toLowerCase() === word

  predicate Keeps(k: Criterion, r: Record)
  {
    match k
    case OwnedBy(e) => r.userEmail == e
    case NotOwnedBy(e) => r.userEmail != e
    case HasId(id) => r.id == id
    case IdOtherThan(id) => r.id != id
    case LabelIs(w) =>
      r.confidence.Some? && r.confidence.value.verdict.Some? && Lower(r.confidence.value.verdict.value) == w
  }

  /** `r` is `s` with some elements dropped and the others in their original order. */
  ghost predicate Subsequence(r: seq<Record>, s: seq<Record>)
    decreases |s|
  {
    r == [] || (s != [] && ((r[0] == s[0] && Subsequence(r[1..], s[1..])) || Subsequence(r, s[1..])))
  }

  /** `Array.prototype.filter`: the elements of `s` that `k` keeps, in their order in `s`. */
  function Filter(s: seq<Record>, k: Criterion): (r: seq<Record>)
    ensures forall x :: x in r <==> x in s && Keeps(k, x)
    ensures |r| <= |s|
  {
    if s == [] then []
    else if Keeps(k, s[0]) then [s[0]] + Filter(s[1..], k)
    else Filter(s[1..], k)
  }

  /** A filtered list drops elements without reordering the rest, and keeps each kept
      element as often as it occurs. */
  lemma {:induction false} FilterPreserves(s: seq<Record>, k: Criterion)
    ensures Subsequence(Filter(s, k), s)
    ensures forall x | Keeps(k, x) :: multiset(Filter(s, k))[x] == multiset(s)[x]
  {
    if s != [] {
      FilterPreserves(s[1..], k);
      assert s == [s[0]] + s[1..];
    }
  }

  /** Filtering a concatenation filters each part. */
  lemma {:induction false} FilterAppend(s: seq<Record>, t: seq<Record>, k: Criterion)
    ensures Filter(s + t, k) == Filter(s, k) + Filter(t, k)
  {
    if s == [] {
      assert s + t == t;
    } else {
      assert (s + t)[1..] == s[1..] + t;
      FilterAppend(s[1..], t, k);
    }
  }

  /** Two filters may be applied in either order. */
  lemma {:induction false} FilterCommutes(s: seq<Record>, a: Criterion, b: Criterion)
    ensures Filter(Filter(s, a), b) == Filter(Filter(s, b), a)
  {
    if s != [] {
      FilterCommutes(s[1..], a, b);
    }
  }

  /** A filter is absorbed by a later, stricter one; with `a == b` this is idempotence. */
  lemma {:induction false} FilterAbsorbs(s: seq<Record>, a: Criterion, b: Criterion)
    requires forall x | x in s && Keeps(b, x) :: Keeps(a, x)
    ensures Filter(Filter(s, a), b) == Filter(s, b)
  {
    if s != [] {
      FilterAbsorbs(s[1..], a, b);
    }
  }

  /** Two filters that never keep the same record keep at most `|s|` records between them. */
  lemma {:induction false} FilterDisjointLength(s: seq<Record>, a: Criterion, b: Criterion)
    requires forall x | x in s :: !(Keeps(a, x) && Keeps(b, x))
    ensures |Filter(s, a)| + |Filter(s, b)| <= |s|
  {
    if s != [] {
      FilterDisjointLength(s[1..], a, b);
    }
  }

  /** The head of a filtered sequence is the first element of `s` that `k` keeps. */
  lemma {:induction false} FilterFirst(s: seq<Record>, k: Criterion)
    requires Filter(s, k) != []
    ensures exists i :: 0 <= i < |s| && s[i] == Filter(s, k)[0] && forall j :: 0 <= j < i ==> !Keeps(k, s[j])
  {
    if Keeps(k, s[0]) {
      assert s[0] == Filter(s, k)[0];
    } else {
      FilterFirst(s[1..], k);
      var i :| 0 <= i < |s[1..]| && s[1..][i] == Filter(s[1..], k)[0]
                && forall j :: 0 <= j < i ==> !Keeps(k, s[1..][j]);
      assert s[i + 1] == Filter(s, k)[0];
      assert forall j :: 0 <= j < i + 1 ==> !Keeps(k, s[j]) by {
        forall j | 0 <= j < i + 1 ensures !Keeps(k, s[j]) {
          if j > 0 { assert s[j] == s[1..][j - 1]; }
        }
      }
    }
  }

  /** No record carries both the verdict "fake" and the verdict "real". */
  lemma LabelsDisjoint(s: seq<Record>)
    ensures forall x | x in s :: !(Keeps(LabelIs("fake"), x) && Keeps(LabelIs("real"), x))
  {
    assert "fake"[0] != "real"[0];
  }

  /** `(count / total) * 100` without the rounding of `toFixed(1)`. */
  function Percentage(count: nat, total: nat): (p: real)
    requires total > 0
    ensures p * (total as real) == 100.0 * (count as real)
    ensures 0.0 <= p
  {
    (count as real / total as real) * 100.0
  }

  lemma PercentageSum(a: nat, b: nat, total: nat)
    requires total > 0 && a + b <= total
    ensures Percentage(a, total) + Percentage(b, total) <= 100.0
  {
  }

  /** The single storage entry holding every user's analyses (key `jobDescriptionAnalyses`). */
  class Store {
    /** The parsed entry, newest first; an absent entry reads as the empty list. */
    var records: seq<Record>
    /** The entry holds text that does not parse as a list of analyses. */
    var unreadable: bool

    /** A browser with no entry under the key. */
    constructor ()
      ensures records == [] && !unreadable
    {
      records := [];
      unreadable := false;
    }

    /** getAll: the caller's records in stored order; empty, never a failure, when the
        e-mail is empty or the entry does not parse. */
    function GetAll(email: string): (r: seq<Record>)
      reads this
      ensures forall x :: x in r <==> !unreadable && email != "" && x in records && x.userEmail == email
      ensures !unreadable && email != "" ==> forall x: Record | x.userEmail == email :: multiset(r)[x] == multiset(records)[x]
      ensures Subsequence(r, records)
    {
      FilterPreserves(records, OwnedBy(email));
      if unreadable || email == "" then [] else Filter(records, OwnedBy(email))
    }

    /** getLatest: the caller's newest record, the first of theirs in the stored order. */
    function GetLatest(email: string): (r: Option<Record>)
      reads this
      ensures r.None? <==> GetAll(email) == []
      ensures r.Some? ==> r.value.userEmail == email && !unreadable
      ensures r.Some? ==> exists i :: 0 <= i < |records| && records[i] == r.value
                                      && forall j :: 0 <= j < i ==> records[j].userEmail != email
    {
      var all := GetAll(email);
      if |all| > 0 then
        assert all[0] in all;
        FilterFirst(records, OwnedBy(email));
        Some(all[0])
      else None
    }

    /** getById: the first of the caller's records carrying `id`; another user's record
        with that id is never returned. */
    function GetById(id: int, email: string): (r: Option<Record>)
      reads this
      ensures r.None? <==> forall x | x in GetAll(email) :: x.id != id
      ensures r.Some? ==> r.value.id == id && r.value.userEmail == email && r.value in records
      ensures r.Some? ==> exists i :: 0 <= i < |GetAll(email)| && GetAll(email)[i] == r.value
                                      && forall j :: 0 <= j < i ==> GetAll(email)[j].id != id
    {
      var found := Filter(GetAll(email), HasId(id));
      if |found| > 0 then
        assert found[0] in found;
        FilterFirst(GetAll(email), HasId(id));
        Some(found[0])
      else None
    }

    /** getStats: how many of the caller's records there are and how many carry the
        verdict "fake" or "real" in any letter case; all zero for a user with no records. */
    function GetStats(email: string): (st: Stats)
      reads this
      ensures st.total == |GetAll(email)|
      ensures st.fake == |Filter(GetAll(email), LabelIs("fake"))|
      ensures st.genuine == |Filter(GetAll(email), LabelIs("real"))|
      ensures st.fake + st.genuine <= st.total
      ensures st.total == 0 ==> st == Stats(0, 0, 0, 0.0, 0.0)
      ensures st.total > 0 ==> st.fakePercentage == Percentage(st.fake, st.total)
      ensures st.total > 0 ==> st.realPercentage == Percentage(st.genuine, st.total)
      ensures 0.0 <= st.fakePercentage && 0.0 <= st.realPercentage
      ensures st.fakePercentage + st.realPercentage <= 100.0
    {
      var all := GetAll(email);
      var total := |all|;
      if total == 0 then Stats(0, 0, 0, 0.0, 0.0)
      else
        var fake := |Filter(all, LabelIs("fake"))|;
        var genuine := |Filter(all, LabelIs("real"))|;
        LabelsDisjoint(all);
        FilterDisjointLength(all, LabelIs("fake"), LabelIs("real"));
        PercentageSum(fake, genuine, total);
        Stats(total, fake, genuine, Percentage(fake, total), Percentage(genuine, total))
    }

    /** add: prepends a new record owned by `email` to the shared list; throws, writing
        nothing, when the entry does not parse or the e-mail is empty. */
    method Add(data: AnalysisData, email: string, id: int, timestamp: string) returns (res: Result<Record, AddError>)
      modifies this
      ensures unreadable == old(unreadable)
      ensures old(unreadable) ==> res == Failure(Unparseable) && records == old(records)
      ensures !old(unreadable) && email == "" ==> res == Failure(MissingEmail) && records == old(records)
      ensures !old(unreadable) && email != "" ==>
        && res == Success(Record(id, email, timestamp, data.confidence, data.shapExplanation, data.jobDescription))
        && records == [res.value] + old(records)
      ensures res.Success? ==> GetLatest(email) == Some(res.value) && GetAll(email) == [res.value] + old(GetAll(email))
      ensures forall other | other != email :: GetAll(other) == old(GetAll(other))
    {
      if unreadable {
        return Failure(Unparseable);
      }
      if email == "" {
        return Failure(MissingEmail);
      }
      var r := Record(id, email, timestamp, data.confidence, data.shapExplanation, data.jobDescription);
      ghost var before := records;
      records := [r] + records;
      forall e {
        FilterAppend([r], before, OwnedBy(e));
      }
      res := Success(r);
    }

    /** delete: drops every record carrying `id`, whoever owns it, and keeps the rest in
        order; succeeds even when nothing matched; fails, writing nothing, when the entry
        does not parse. */
    method Delete(id: int) returns (ok: bool)
      modifies this
      ensures unreadable == old(unreadable) && ok == !old(unreadable)
      ensures records == if ok then Filter(old(records), IdOtherThan(id)) else old(records)
      ensures forall e :: GetById(id, e) == None
      ensures forall e :: GetAll(e) == Filter(old(GetAll(e)), IdOtherThan(id))
      ensures ok ==> Filter(records, IdOtherThan(id)) == records
    {
      if unreadable {
        return false;
      }
      ghost var before := records;
      records := Filter(records, IdOtherThan(id));
      forall e ensures GetAll(e) == Filter(old(GetAll(e)), IdOtherThan(id)) {
        FilterCommutes(before, OwnedBy(e), IdOtherThan(id));
      }
      forall e ensures GetById(id, e) == None {
        assert forall x | x in GetAll(e) :: x in records;
      }
      FilterAbsorbs(before, IdOtherThan(id), IdOtherThan(id));
      ok := true;
    }

    /** clearAll: drops all and only the records owned by `email`; every other user's
        records stay, in their order; fails, writing nothing, when the entry does not parse. */
    method ClearAll(email: string) returns (ok: bool)
      modifies this
      ensures unreadable == old(unreadable) && ok == !old(unreadable)
      ensures records == if ok then Filter(old(records), NotOwnedBy(email)) else old(records)
      ensures GetAll(email) == []
      ensures forall other | other != email :: GetAll(other) == old(GetAll(other))
    {
      if unreadable {
        return false;
      }
      ghost var before := records;
      records := Filter(records, NotOwnedBy(email));
      forall other | other != email {
        FilterAbsorbs(before, NotOwnedBy(email), OwnedBy(other));
      }
      ok := true;
    }
  }
}
