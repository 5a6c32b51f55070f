/** The backend's `rank_jobs`: each submitted analysis is scored for authenticity and
    relevance to the current user's profession, then safe jobs are listed first, best
    composite score first. */
module Ranking {
  import opened Common
  import opened Text
  import opened Users
  import Auth

  /** An entry of the request's `analyses` list. `jobDescription` and `resumeText` are ""
      when absent or null: every use of them treats those alike. */
  datatype Analysis = Analysis(jobDescription: string, resumeText: string, confidence: Option<Confidence>)

  /** A processed entry: the submitted analysis with the fields `rank_jobs` adds. */
  datatype Ranked = Ranked(
    item: Analysis,
    baseRealScore: real,
    personalizedScore: real,
    compositeScore: real,
    cvMatchScore: Option<real>,
    isRelevant: bool,
    isSafe: bool,
    relevanceAlert: Option<string>,
    riskLevel: string,
    userProfession: Option<string>)

  /** Why an entry is skipped: reading its confidences raised. */
  datatype Skip = UnlabelledEntry | RealEntryWithoutConfidence

  /** The sentence-embedding cosine similarity of two texts; None when the encoder raises. */
  type Cosine = (string, string) -> Option<real>

  const CriticalAlert := "CRITICAL: Potential Fake Job detected."

  /** The alert for an authentic job that does not fit the profession; it is never the
      CRITICAL one. */
  function ProfessionAlert(profession: string): (alert: string)
    ensures alert != CriticalAlert
  {
    var head := "Authentic job, but might not align with a ";
    assert (head + profession + " role.")[0] == head[0] == 'A';
    assert CriticalAlert[0] == 'C';
    head + profession + " role."
  }

  /** compute_nlp_similarity: 0 when either text is empty or the encoder raises,
      otherwise the cosine clamped at 0 and scaled to a percentage. */
  function Similarity(a: string, b: string, cosine: Cosine): (score: real)
    ensures 0.0 <= score
    ensures a == "" || b == "" ==> score == 0.0
    ensures cosine(a, b).Some? && cosine(a, b).value <= 1.0 ==> score <= 100.0
    ensures score > 0.0 ==> a != "" && b != "" && cosine(a, b) == Some(score / 100.0)
    ensures a != "" && b != "" && cosine(a, b).Some? && cosine(a, b).value > 0.0 ==>
      score == 100.0 * cosine(a, b).value
  {
    if a == "" || b == "" then 0.0
    else
      match cosine(a, b)
      case None => 0.0
      case Some(c) => (if c > 0.0 then c else 0.0) * 100.0
  }

  /** `c['label'].upper() == 'REAL'` for an entry that has a label. */
  predicate IsReal(e: ClassScore)
  {
    e.className.Some? && Upper(e.className.value) == "REAL"
  }

  /** An entry the scan for REAL passes over without raising. */
  predicate PassedOver(e: ClassScore)
  {
    e.className.Some? && Upper(e.className.value) != "REAL"
  }

  /** The scan stops at entry `i`: every entry before it is passed over. */
  ghost predicate StopsAt(entries: seq<ClassScore>, i: int)
  {
    0 <= i < |entries| && !PassedOver(entries[i]) && forall j :: 0 <= j < i ==> PassedOver(entries[j])
  }

  /** `next(c for c in conf_list if c['label'].upper() == 'REAL')` and its `['confidence']`:
      the confidence of the first REAL entry, None when no entry is REAL; it raises when
      an entry reached before that has no label or the REAL entry has no confidence. */
  function RealConfidence(entries: seq<ClassScore>): (r: Result<Option<real>, Skip>)
    ensures r == Success(None) <==> forall i :: 0 <= i < |entries| ==> PassedOver(entries[i])
    ensures forall i | StopsAt(entries, i) ::
      r == if entries[i].className.None? then Failure(UnlabelledEntry)
           else if entries[i].confidence.None? then Failure(RealEntryWithoutConfidence)
           else Success(entries[i].confidence)
    ensures r.Success? && r.value.Some? ==> exists i :: 0 <= i < |entries| && entries[i].confidence == r.value
  {
    if entries == [] then Success(None)
    else
      var e := entries[0];
      if e.className.None? then Failure(UnlabelledEntry)
      else if IsReal(e) then
        if e.confidence.None? then Failure(RealEntryWithoutConfidence) else Success(e.confidence)
      else
        var r := RealConfidence(entries[1..]);
        assert forall i | StopsAt(entries, i) :: i > 0 && StopsAt(entries[1..], i - 1);
        assert forall i | 0 <= i < |entries[1..]| :: entries[1..][i] == entries[i + 1];
        r
  }

  /** base_real_score: 100 times the confidence of the first REAL entry, 0 when the
      analysis has no confidence object or no REAL entry. */
  function BaseRealScore(confidence: Option<Confidence>): (r: Result<real, Skip>)
    ensures confidence.None? ==> r == Success(0.0)
    ensures confidence.Some? && RealConfidence(confidence.value.confidences) == Success(None) ==> r == Success(0.0)
    ensures confidence.Some? && RealConfidence(confidence.value.confidences).Success?
            && RealConfidence(confidence.value.confidences).value.Some? ==>
            r == Success(100.0 * RealConfidence(confidence.value.confidences).value.value)
    ensures r.Failure? <==> confidence.Some? && RealConfidence(confidence.value.confidences).Failure?
  {
    match confidence
    case None => Success(0.0)
    case Some(c) =>
      match RealConfidence(c.confidences)
      case Failure(e) => Failure(e)
      case Success(None) => Success(0.0)
      case Success(Some(x)) => Success(x * 100.0)
  }

  /** `(current_user.profession or "Student").lower().strip()`. */
  function ProfessionKey(profession: Option<string>): (key: string)
    ensures profession.None? || profession == Some("") ==> key == "student"
    ensures profession.Some? && profession.value != "" ==> key == Strip(Lower(profession.value))
  {
    if profession.Some? && profession.value != "" then Strip(Lower(profession.value))
    else
      DefaultProfessionKey();
      Strip(Lower("Student"))
  }

  /** The fallback profession normalises to "student". */
  lemma DefaultProfessionKey()
    ensures Strip(Lower("Student")) == "student"
  {
    var low := Lower("Student");
    assert low == "student" by {
      assert low[0] == LowerChar('S') == 's';
    }
    assert TrimStart(low) == low by {
      assert !IsSpace(low[0]);
    }
    assert TrimEnd(low) == low by {
      assert !IsSpace(low[|low| - 1]);
    }
  }

  function Min(a: real, b: real): real
  {
    if a <= b then a else b
  }

  /** One iteration of the loop over `analyses`: the entry with its scores added, or the
      reason it is skipped. */
  function ScoreItem(item: Analysis, user: User, cosine: Cosine): (r: Result<Ranked, Skip>)
    ensures r.Failure? <==> BaseRealScore(item.confidence).Failure?
    ensures r.Success? ==>
      && r.value.item == item && r.value.userProfession == user.profession
      && r.value.baseRealScore == BaseRealScore(item.confidence).value
  {
    match BaseRealScore(item.confidence)
    case Failure(e) => Failure(e)
    case Success(base) =>
      var profession := ProfessionKey(user.profession);
      var isSafe := base >= 50.0;
      var riskLevel := if isSafe then "LOW" else "HIGH";
      var isRelevant := Similarity(profession, item.jobDescription, cosine) > 10.0;
      var personalized := if isRelevant then Min(base * 1.2, 100.0) else if base > 60.0 then base * 0.6 else base;
      var professionAlert := if !isRelevant && base > 60.0 then Some(ProfessionAlert(profession)) else None;
      var alert := if !isSafe then Some(CriticalAlert) else professionAlert;
      var cv := if isSafe && item.resumeText != "" then Some(Similarity(item.resumeText, item.jobDescription, cosine)) else None;
      var composite := if cv.Some? then 0.6 * personalized + 0.4 * cv.value else personalized;
      Success(Ranked(item, base, personalized, composite, cv, isRelevant, isSafe, alert, riskLevel, user.profession))
  }

  /** B: an entry is safe exactly when its base score is at least 50, and its risk level
      is LOW when safe and HIGH otherwise. C: it is relevant exactly when the profession
      matches the description by more than 10 percent. */
  lemma SafetyAndRelevance(item: Analysis, user: User, cosine: Cosine)
    requires ScoreItem(item, user, cosine).Success?
    ensures var x := ScoreItem(item, user, cosine).value;
      && (x.isSafe <==> x.baseRealScore >= 50.0)
      && (x.riskLevel == "LOW" <==> x.isSafe) && (x.riskLevel == "HIGH" <==> !x.isSafe)
      && (x.isRelevant <==> Similarity(ProfessionKey(user.profession), item.jobDescription, cosine) > 10.0)
  {
  }

  /** D, the alert: CRITICAL exactly for unsafe entries, whatever their relevance; the
      profession alert exactly for irrelevant entries scoring above 60; none otherwise. */
  lemma AlertRules(item: Analysis, user: User, cosine: Cosine)
    requires ScoreItem(item, user, cosine).Success?
    ensures var x := ScoreItem(item, user, cosine).value;
      && (x.relevanceAlert == Some(CriticalAlert) <==> !x.isSafe)
      && (x.relevanceAlert == Some(ProfessionAlert(ProfessionKey(user.profession))) <==> !x.isRelevant && x.baseRealScore > 60.0)
      && (x.relevanceAlert == None <==> x.isSafe && (x.isRelevant || x.baseRealScore <= 60.0))
  {
    var x := ScoreItem(item, user, cosine).value;
    var alert := ProfessionAlert(ProfessionKey(user.profession));
    assert alert != CriticalAlert;
    if !x.isSafe {
      assert x.relevanceAlert == Some(CriticalAlert);
    } else if !x.isRelevant && x.baseRealScore > 60.0 {
      assert x.relevanceAlert == Some(alert);
    } else {
      assert x.relevanceAlert == None;
    }
  }

  /** D, the personalised score: boosted by a fifth and capped at 100 when relevant,
      cut to 60 percent when irrelevant and above 60, unchanged otherwise. */
  lemma PersonalizedRules(item: Analysis, user: User, cosine: Cosine)
    requires ScoreItem(item, user, cosine).Success?
    ensures var x := ScoreItem(item, user, cosine).value;
      && (x.isRelevant ==> x.personalizedScore == Min(1.2 * x.baseRealScore, 100.0))
      && (!x.isRelevant && x.baseRealScore > 60.0 ==> x.personalizedScore == 0.6 * x.baseRealScore)
      && (!x.isRelevant && x.baseRealScore <= 60.0 ==> x.personalizedScore == x.baseRealScore)
  {
  }

  /** E: the CV match is computed only for a safe entry with a résumé; then the composite
      is 60 percent personalised score plus 40 percent CV match, otherwise it is the
      personalised score. */
  lemma CompositeRules(item: Analysis, user: User, cosine: Cosine)
    requires ScoreItem(item, user, cosine).Success?
    ensures var x := ScoreItem(item, user, cosine).value;
      && (x.cvMatchScore.Some? <==> x.isSafe && item.resumeText != "")
      && (x.cvMatchScore.None? ==> x.compositeScore == x.personalizedScore)
      && (x.cvMatchScore.Some? ==>
            && x.cvMatchScore.value == Similarity(item.resumeText, item.jobDescription, cosine)
            && x.compositeScore == 0.6 * x.personalizedScore + 0.4 * x.cvMatchScore.value)
  {
  }

  /** Confidences that are probabilities and cosines at most 1 give scores that are
      percentages. */
  lemma ScoresArePercentages(item: Analysis, user: User, cosine: Cosine)
    requires ScoreItem(item, user, cosine).Success?
    requires item.confidence.Some? ==>
      forall e | e in item.confidence.value.confidences && e.confidence.Some? :: 0.0 <= e.confidence.value <= 1.0
    requires forall a, b :: cosine(a, b).Some? ==> cosine(a, b).value <= 1.0
    ensures var x := ScoreItem(item, user, cosine).value;
      && 0.0 <= x.baseRealScore <= 100.0
      && 0.0 <= x.personalizedScore <= 100.0
      && 0.0 <= x.compositeScore <= 100.0
      && (x.cvMatchScore.Some? ==> 0.0 <= x.cvMatchScore.value <= 100.0)
  {
    if item.confidence.Some? {
      var r := RealConfidence(item.confidence.value.confidences);
      if r.Success? && r.value.Some? {
        var i :| 0 <= i < |item.confidence.value.confidences| && item.confidence.value.confidences[i].confidence == r.value;
        assert item.confidence.value.confidences[i] in item.confidence.value.confidences;
      }
    }
  }

  /** Python orders `False` before `True`: the first component of the sort key as a number. */
  function SafetyRank(x: Ranked): int
  {
    if x.isSafe then 1 else 0
  }

  /** Under `key=(is_safe, composite_score), reverse=True`, `a` may precede `b`:
      `b` is safe only if `a` is, and with equal safety `a` scores at least as high. */
  predicate KeyAtLeast(a: Ranked, b: Ranked): (r: bool)
    ensures r <==> (SafetyRank(a) > SafetyRank(b) || (SafetyRank(a) == SafetyRank(b) && a.compositeScore >= b.compositeScore))
  {
    (b.isSafe ==> a.isSafe) && (a.isSafe == b.isSafe ==> a.compositeScore >= b.compositeScore)
  }

  /** Every safe entry precedes every unsafe one, and entries of equal safety have
      non-increasing composite scores. */
  ghost predicate RankOrdered(s: seq<Ranked>)
  {
    forall i, j :: 0 <= i < j < |s| ==> KeyAtLeast(s[i], s[j])
  }

  /** The entries of `s` whose sort key is `(safe, score)`, in their order in `s`. */
  function WithKey(s: seq<Ranked>, safe: bool, score: real): (r: seq<Ranked>)
    ensures forall x | x in r :: x in s && x.isSafe == safe && x.compositeScore == score
  {
    if s == [] then []
    else if s[0].isSafe == safe && s[0].compositeScore == score then [s[0]] + WithKey(s[1..], safe, score)
    else WithKey(s[1..], safe, score)
  }

  /** Places `x` before the first entry whose key it is at least; equal keys keep `x` first. */
  function Insert(x: Ranked, s: seq<Ranked>): (r: seq<Ranked>)
    ensures multiset(r) == multiset(s) + multiset{x}
  {
    if s == [] || KeyAtLeast(x, s[0]) then [x] + s
    else
      assert s == [s[0]] + s[1..];
      [s[0]] + Insert(x, s[1..])
  }

  lemma {:induction false} InsertOrdered(x: Ranked, s: seq<Ranked>)
    requires RankOrdered(s)
    ensures RankOrdered(Insert(x, s))
  {
    if s == [] || KeyAtLeast(x, s[0]) {
      assert forall j | 0 < j < |s| :: KeyAtLeast(s[0], s[j]);
    } else {
      var rest := Insert(x, s[1..]);
      InsertOrdered(x, s[1..]);
      assert s == [s[0]] + s[1..];
      forall y | y in rest ensures KeyAtLeast(s[0], y) {
        assert y in multiset(rest);
        if y != x {
          assert y in s[1..];
        }
      }
      assert forall j | 0 <= j < |rest| :: rest[j] in rest;
    }
  }

  /** The stable sort `processed_results.sort(...)` performs. */
  function SortRanked(s: seq<Ranked>): (r: seq<Ranked>)
    ensures multiset(r) == multiset(s)
    ensures RankOrdered(r)
  {
    if s == [] then []
    else
      assert s == [s[0]] + s[1..];
      InsertOrdered(s[0], SortRanked(s[1..]));
      Insert(s[0], SortRanked(s[1..]))
  }

  lemma {:induction false} InsertStable(x: Ranked, s: seq<Ranked>, safe: bool, score: real)
    ensures WithKey(Insert(x, s), safe, score)
         == (if x.isSafe == safe && x.compositeScore == score then [x] else []) + WithKey(s, safe, score)
  {
    if s != [] && !KeyAtLeast(x, s[0]) {
      InsertStable(x, s[1..], safe, score);
    }
  }

  /** The sort is stable: entries with equal keys keep their original relative order. */
  lemma {:induction false} SortStable(s: seq<Ranked>, safe: bool, score: real)
    ensures WithKey(SortRanked(s), safe, score) == WithKey(s, safe, score)
  {
    if s != [] {
      SortStable(s[1..], safe, score);
      InsertStable(s[0], SortRanked(s[1..]), safe, score);
    }
  }

  /** `processed_results` after the loop: the scored entries, in submission order, with
      the entries whose confidences raised left out. */
  function Processed(analyses: seq<Analysis>, user: User, cosine: Cosine): (r: seq<Ranked>)
    ensures |r| <= |analyses|
    ensures forall x | x in r :: x.item in analyses && ScoreItem(x.item, user, cosine) == Success(x)
    ensures forall a | a in analyses && ScoreItem(a, user, cosine).Success? :: ScoreItem(a, user, cosine).value in r
  {
    if analyses == [] then []
    else
      var front := analyses[..|analyses| - 1];
      var last := analyses[|analyses| - 1];
      assert analyses == front + [last];
      var done := Processed(front, user, cosine);
      match ScoreItem(last, user, cosine)
      case Success(x) => done + [x]
      case Failure(_) => done
  }

  /** A single entry is kept, as its own scoring, exactly when it scores. */
  lemma ProcessedSingle(a: Analysis, user: User, cosine: Cosine)
    ensures ScoreItem(a, user, cosine).Success? ==> Processed([a], user, cosine) == [ScoreItem(a, user, cosine).value]
    ensures ScoreItem(a, user, cosine).Failure? ==> Processed([a], user, cosine) == []
  {
    assert [a][..0] == [];
  }

  /** The loop handles each entry on its own: processing a concatenation processes both
      parts and keeps them in submission order, so repeated entries are kept repeatedly. */
  lemma {:induction false} ProcessedAppend(a: seq<Analysis>, b: seq<Analysis>, user: User, cosine: Cosine)
    ensures Processed(a + b, user, cosine) == Processed(a, user, cosine) + Processed(b, user, cosine)
    decreases |b|
  {
    if b == [] {
      assert a + b == a;
    } else {
      var front := b[..|b| - 1];
      var last := b[|b| - 1];
      assert (a + b)[..|a + b| - 1] == a + front;
      assert (a + b)[|a + b| - 1] == last;
      assert b[..|b| - 1] == front;
      ProcessedAppend(a, front, user, cosine);
    }
  }

  /** rank_jobs for an authenticated user: status 200 and the processed entries, safe
      ones first and best composite score first, equal keys in submission order. */
  method RankJobs(user: User, analyses: seq<Analysis>, cosine: Cosine) returns (status: int, results: seq<Ranked>)
    ensures status == 200
    ensures results == SortRanked(Processed(analyses, user, cosine))
    ensures analyses == [] ==> results == []
    ensures RankOrdered(results)
    ensures multiset(results) == multiset(Processed(analyses, user, cosine))
    ensures forall safe, score :: WithKey(results, safe, score) == WithKey(Processed(analyses, user, cosine), safe, score)
    ensures forall x | x in results :: x.item in analyses && ScoreItem(x.item, user, cosine) == Success(x)
    ensures forall a | a in analyses && ScoreItem(a, user, cosine).Success? :: ScoreItem(a, user, cosine).value in results
  {
    if analyses == [] {
      return 200, [];
    }
    var processed := [];
    for i := 0 to |analyses|
      invariant processed == Processed(analyses[..i], user, cosine)
    {
      assert analyses[..i + 1][..i] == analyses[..i];
      match ScoreItem(analyses[i], user, cosine) {
        case Success(x) =>
          processed := processed + [x];
        case Failure(_) =>
      }
    }
    assert analyses[..|analyses|] == analyses;
    results := SortRanked(processed);
    forall safe, score ensures WithKey(results, safe, score) == WithKey(processed, safe, score) {
      SortStable(processed, safe, score);
    }
    assert forall x | x in results :: x in processed by {
      forall x | x in results ensures x in processed {
        assert x in multiset(results);
      }
    }
    assert forall x | x in processed :: x in results by {
      forall x | x in processed ensures x in results {
        assert x in multiset(processed);
      }
    }
    status := 200;
  }

  /** The route `POST /api/rank_jobs`: `token_required` first, then `rank_jobs` for the
      user it finds. */
  method RankJobsRoute(header: Option<string>, emailClaim: string -> Option<string>, users: map<string, User>,
                       analyses: seq<Analysis>, cosine: Cosine)
    returns (status: int, results: seq<Ranked>)
    ensures Auth.Authenticate(header, emailClaim, users).Failure? ==> status == 401 && results == []
    ensures Auth.Authenticate(header, emailClaim, users).Success? ==>
      status == 200 && results == SortRanked(Processed(analyses, Auth.Authenticate(header, emailClaim, users).value, cosine))
  {
    match Auth.Authenticate(header, emailClaim, users) {
      case Failure(denial) =>
        status, results := denial.status, [];
      case Success(user) =>
        status, results := RankJobs(user, analyses, cosine);
    }
  }
}
