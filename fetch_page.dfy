/** `src/pages/FetchPage.jsx`, `fetchTemplates`: fetch batches of external
    templates until 20 new ones are found or 5 attempts are used, skipping
    every template whose original URL is already stored or already taken,
    then save each new template with up to three tries and report the
    outcome. The batch fetcher and the database are oracles indexed by the
    attempt, and by the template and try. */
module FetchPage {
  import opened Optional
  import opened JsStrings
  import opened JsArrays
  import opened ExternalTemplates

  const TargetTemplates: nat := 20
  const MaxAttempts: nat := 5
  /** Retries after the first save try of one template. */
  const MaxSaveRetries: nat := 2

  /** What one call of the source's fetcher gave: a batch, or a thrown error
      with its message. */
  datatype Batch = Fetched(templates: seq<Stored>) | BatchError(message: string)

  /** The end of the fetch loop: the accepted templates and the attempts
      used, or the message of the error thrown on the last attempt. */
  datatype Outcome = Accepted(templates: seq<Stored>, attempts: nat) | Failed(message: string)

  /** What the page shows at the end: an error, or a success message with
      the ids of the saved templates. */
  datatype Report = Failure(message: string) | Success(message: string, newIds: set<string>)

  // ---------------------------------------------------------------- known URLs

  /** The stored templates' original URLs, the empty ones dropped. */
  function KnownUrls(existing: seq<Stored>): (r: set<string>)
    ensures "" !in r
    ensures forall i :: 0 <= i < |existing| && existing[i].originalUrl != "" ==> existing[i].originalUrl in r
    ensures forall u :: u in r ==> exists i :: 0 <= i < |existing| && existing[i].originalUrl == u
  {
    set i | 0 <= i < |existing| && existing[i].originalUrl != "" :: existing[i].originalUrl
  }

  /** One more template adds its original URL, unless it has none. */
  lemma KnownUrlsSnoc(s: seq<Stored>)
    requires s != []
    ensures var t := s[|s| - 1];
            KnownUrls(s) == KnownUrls(s[..|s| - 1]) + (if t.originalUrl == "" then {} else {t.originalUrl})
  {
    var front := s[..|s| - 1];
    assert forall i :: 0 <= i < |front| ==> front[i] == s[i];
  }

  /** No template of `s` with an original URL has one from `known`, and no
      two of them share one. */
  ghost predicate NewAndDistinct(known: set<string>, s: seq<Stored>)
  {
    (forall i :: 0 <= i < |s| && s[i].originalUrl != "" ==> s[i].originalUrl !in known)
    && forall i, j :: 0 <= i < j < |s| && s[i].originalUrl != "" ==> s[i].originalUrl != s[j].originalUrl
  }

  // --------------------------------------------------------- one batch's filter

  /** The batch filter, run over `batch` from a URL set `known`: the kept
      templates and the set afterwards. A template without an original URL
      is kept; one whose URL is in the set is dropped; any other is kept
      and its URL added. */
  function Fresh(known: set<string>, batch: seq<Stored>): (r: (seq<Stored>, set<string>))
    ensures r.1 == known + KnownUrls(batch)
    ensures forall i :: 0 <= i < |r.0| ==> r.0[i] in batch
    ensures forall i :: 0 <= i < |r.0| && r.0[i].originalUrl != "" ==> r.0[i].originalUrl in r.1
    ensures NewAndDistinct(known, r.0)
  {
    if batch == [] then ([], known)
    else
      var p := Fresh(known, batch[..|batch| - 1]);
      var t := batch[|batch| - 1];
      KnownUrlsSnoc(batch);
      if t.originalUrl == "" then (p.0 + [t], p.1)
      else if t.originalUrl in p.1 then p
      else (p.0 + [t], p.1 + {t.originalUrl})
  }

  /** Whether the filter, run from `known`, keeps `batch[k]`: it has no
      original URL, or its URL is neither known nor carried by an earlier
      template of the batch. */
  predicate KeptAt(known: set<string>, batch: seq<Stored>, k: nat)
    requires k < |batch|
  {
    batch[k].originalUrl == ""
    || (batch[k].originalUrl !in known && forall j :: 0 <= j < k ==> batch[j].originalUrl != batch[k].originalUrl)
  }

  /** The indices below `n` of the templates the filter keeps, in batch order. */
  function FreshIndices(known: set<string>, batch: seq<Stored>, n: nat): (ks: seq<nat>)
    requires n <= |batch|
    ensures forall a :: 0 <= a < |ks| ==> ks[a] < n && KeptAt(known, batch, ks[a])
    ensures forall a, b :: 0 <= a < b < |ks| ==> ks[a] < ks[b]
    ensures forall k :: 0 <= k < n && KeptAt(known, batch, k) ==> k in ks
  {
    if n == 0 then [] else FreshIndices(known, batch, n - 1) + (if KeptAt(known, batch, n - 1) then [n - 1] else [])
  }

  /** The filter keeps exactly the templates `KeptAt` picks, in batch order
      and each once. */
  lemma FreshSpec(known: set<string>, batch: seq<Stored>)
    ensures var r, ks := Fresh(known, batch).0, FreshIndices(known, batch, |batch|);
            |r| == |ks| && forall j :: 0 <= j < |r| ==> r[j] == batch[ks[j]]
  {
    FreshInOrder(known, batch, |batch|);
    assert batch[..|batch|] == batch;
  }

  lemma {:induction false} FreshInOrder(known: set<string>, batch: seq<Stored>, n: nat)
    requires n <= |batch|
    ensures var r, ks := Fresh(known, batch[..n]).0, FreshIndices(known, batch, n);
            |r| == |ks| && forall j :: 0 <= j < |r| ==> r[j] == batch[ks[j]]
  {
    if n > 0 {
      FreshInOrder(known, batch, n - 1);
      var s, front := batch[..n], batch[..n - 1];
      assert s[..|s| - 1] == front;
      var t := batch[n - 1];
      assert s[|s| - 1] == t;
      var p := Fresh(known, front);
      if t.originalUrl != "" {
        if t.originalUrl in KnownUrls(front) {
          var j :| 0 <= j < |front| && front[j].originalUrl == t.originalUrl;
          assert batch[j] == front[j];
        }
        if !KeptAt(known, batch, n - 1) && t.originalUrl !in known {
          var j :| 0 <= j < n - 1 && batch[j].originalUrl == t.originalUrl;
          assert front[j] == batch[j];
        }
        assert t.originalUrl in p.1 <==> !KeptAt(known, batch, n - 1);
      }
    }
  }

  /** The filter keeps a template exactly when it has no original URL, or
      its URL is neither known nor carried by an earlier template of the
      batch. */
  lemma {:induction false} FreshKeeps(known: set<string>, batch: seq<Stored>, k: nat)
    requires k < |batch|
    requires batch[k].originalUrl == ""
             || (batch[k].originalUrl !in known && forall j :: 0 <= j < k ==> batch[j].originalUrl != batch[k].originalUrl)
    ensures batch[k] in Fresh(known, batch).0
  {
    var front := batch[..|batch| - 1];
    var p := Fresh(known, front);
    if k == |batch| - 1 {
      assert forall j :: 0 <= j < |front| ==> front[j] == batch[j];
    } else {
      assert front[k] == batch[k];
      assert forall j :: 0 <= j < k ==> front[j] == batch[j];
      FreshKeeps(known, front, k);
    }
  }

  /** `newTemplates = fetchedBatch.filter(...)`, adding each kept URL to
      `allFetchedUrls`. */
  method FilterNew(batch: seq<Stored>, allFetchedUrls: set<string>) returns (newTemplates: seq<Stored>, urls: set<string>)
    ensures (newTemplates, urls) == Fresh(allFetchedUrls, batch)
  {
    newTemplates, urls := [], allFetchedUrls;
    for i := 0 to |batch|
      invariant (newTemplates, urls) == Fresh(allFetchedUrls, batch[..i])
    {
      assert batch[..i + 1][..i] == batch[..i];
      var template := batch[i];
      if template.originalUrl == "" {
        newTemplates := newTemplates + [template];
      } else if template.originalUrl !in urls {
        urls := urls + {template.originalUrl};
        newTemplates := newTemplates + [template];
      }
    }
    assert batch[..|batch|] == batch;
  }

  // ---------------------------------------------------------------- the retry loop

  /** The fetch loop from a state: `known` is `allFetchedUrls`, `acc` the
      templates accepted so far, `attempt` the attempts made, and `batch(a)`
      what attempt `a` fetched. */
  function Loop(known: set<string>, acc: seq<Stored>, attempt: nat, batch: nat -> Batch): (r: Outcome)
    requires attempt <= MaxAttempts && |acc| <= TargetTemplates
    ensures r.Accepted? ==> |acc| <= |r.templates| <= TargetTemplates && attempt <= r.attempts <= MaxAttempts
    decreases MaxAttempts - attempt
  {
    if !(|acc| < TargetTemplates && attempt < MaxAttempts) then Accepted(acc, attempt)
    else
      var a := attempt + 1;
      match batch(a)
      case BatchError(m) => if a >= MaxAttempts then Failed(m) else Loop(known, acc, a, batch)
      case Fetched(b) =>
        var f := Fresh(known, b);
        var templates := acc + f.0;
        if |templates| >= TargetTemplates then Accepted(Take(templates, TargetTemplates), a)
        else Loop(f.1, templates, a, batch)
  }

  /** The loop of `fetchTemplates`, up to the check for an empty result. */
  method FetchNew(existing: seq<Stored>, batch: nat -> Batch) returns (outcome: Outcome)
    ensures outcome == Loop(KnownUrls(existing), [], 0, batch)
  {
    var allFetchedUrls := KnownUrls(existing);
    var templates: seq<Stored> := [];
    var attempt := 0;
    while |templates| < TargetTemplates && attempt < MaxAttempts
      invariant attempt <= MaxAttempts && |templates| < TargetTemplates
      invariant Loop(allFetchedUrls, templates, attempt, batch) == Loop(KnownUrls(existing), [], 0, batch)
      decreases MaxAttempts - attempt
    {
      attempt := attempt + 1;
      match batch(attempt)
      case BatchError(m) =>
        if attempt >= MaxAttempts {
          return Failed(m);
        }
      case Fetched(fetchedBatch) =>
        var newTemplates;
        newTemplates, allFetchedUrls := FilterNew(fetchedBatch, allFetchedUrls);
        templates := templates + newTemplates;
        if |templates| >= TargetTemplates {
          templates := Take(templates, TargetTemplates);
          return Accepted(templates, attempt);
        }
    }
    return Accepted(templates, attempt);
  }

  /** Whatever the batches, the accepted templates are new: none carries an
      original URL already stored, and no two share one, across batches
      too. */
  lemma {:induction false} LoopNew(known0: set<string>, known: set<string>, acc: seq<Stored>, attempt: nat, batch: nat -> Batch)
    requires attempt <= MaxAttempts && |acc| <= TargetTemplates
    requires known0 <= known
    requires forall i :: 0 <= i < |acc| && acc[i].originalUrl != "" ==> acc[i].originalUrl in known
    requires NewAndDistinct(known0, acc)
    ensures Loop(known, acc, attempt, batch).Accepted? ==> NewAndDistinct(known0, Loop(known, acc, attempt, batch).templates)
    decreases MaxAttempts - attempt
  {
    if |acc| < TargetTemplates && attempt < MaxAttempts {
      var a := attempt + 1;
      match batch(a)
      case BatchError(m) =>
        if a < MaxAttempts {
          LoopNew(known0, known, acc, a, batch);
        }
      case Fetched(b) =>
        var f := Fresh(known, b);
        var templates := acc + f.0;
        AppendNew(known0, known, acc, f.0, f.1);
        if |templates| >= TargetTemplates {
          PrefixNew(known0, templates, TargetTemplates);
        } else {
          LoopNew(known0, f.1, templates, a, batch);
        }
    }
  }

  /** Appending what the filter kept from `known` to templates whose URLs
      are all in `known` keeps them new and distinct. */
  lemma AppendNew(known0: set<string>, known: set<string>, acc: seq<Stored>, kept: seq<Stored>, after: set<string>)
    requires known0 <= known <= after
    requires forall i :: 0 <= i < |acc| && acc[i].originalUrl != "" ==> acc[i].originalUrl in known
    requires forall i :: 0 <= i < |kept| && kept[i].originalUrl != "" ==> kept[i].originalUrl in after
    requires NewAndDistinct(known0, acc) && NewAndDistinct(known, kept)
    ensures NewAndDistinct(known0, acc + kept)
    ensures forall i :: 0 <= i < |acc + kept| && (acc + kept)[i].originalUrl != "" ==> (acc + kept)[i].originalUrl in after
  {
    var s := acc + kept;
    forall i, j | 0 <= i < j < |s| && s[i].originalUrl != ""
      ensures s[i].originalUrl != s[j].originalUrl
    {
      if i < |acc| <= j {
        assert s[j] == kept[j - |acc|];
      }
    }
  }

  /** A prefix of new, distinct templates is new and distinct. */
  lemma PrefixNew(known: set<string>, s: seq<Stored>, n: nat)
    requires NewAndDistinct(known, s)
    ensures NewAndDistinct(known, Take(s, n))
  {
    var top := Take(s, n);
    assert forall i :: 0 <= i < |top| ==> top[i] == s[i];
  }

  lemma FetchedTemplatesAreNew(existing: seq<Stored>, batch: nat -> Batch)
    ensures var r := Loop(KnownUrls(existing), [], 0, batch);
            r.Accepted? ==> NewAndDistinct(KnownUrls(existing), r.templates)
  {
    LoopNew(KnownUrls(existing), KnownUrls(existing), [], 0, batch);
  }

  /** Templates accepted on earlier attempts are never lost: they head
      the accepted list. */
  lemma {:induction false} LoopKeepsAccepted(known: set<string>, acc: seq<Stored>, attempt: nat, batch: nat -> Batch)
    requires attempt <= MaxAttempts && |acc| <= TargetTemplates
    ensures var r := Loop(known, acc, attempt, batch);
            r.Accepted? ==> acc <= r.templates
    decreases MaxAttempts - attempt
  {
    if |acc| < TargetTemplates && attempt < MaxAttempts {
      var a := attempt + 1;
      match batch(a)
      case BatchError(m) =>
        if a < MaxAttempts {
          LoopKeepsAccepted(known, acc, a, batch);
        }
      case Fetched(b) =>
        var f := Fresh(known, b);
        var templates := acc + f.0;
        assert acc <= templates;
        if |templates| < TargetTemplates {
          LoopKeepsAccepted(f.1, templates, a, batch);
        }
    }
  }

  /** The loop stops before its fifth attempt only once it holds exactly
      20 templates. */
  lemma {:induction false} LoopStopsAtTarget(known: set<string>, acc: seq<Stored>, attempt: nat, batch: nat -> Batch)
    requires attempt <= MaxAttempts && |acc| <= TargetTemplates
    ensures var r := Loop(known, acc, attempt, batch);
            r.Accepted? && r.attempts < MaxAttempts ==> |r.templates| == TargetTemplates
    decreases MaxAttempts - attempt
  {
    if |acc| < TargetTemplates && attempt < MaxAttempts {
      var a := attempt + 1;
      match batch(a)
      case BatchError(m) =>
        if a < MaxAttempts {
          LoopStopsAtTarget(known, acc, a, batch);
        }
      case Fetched(b) =>
        var f := Fresh(known, b);
        if |acc + f.0| < TargetTemplates {
          LoopStopsAtTarget(f.1, acc + f.0, a, batch);
        }
    }
  }

  /** The loop fails only with the error thrown on the fifth attempt. */
  lemma {:induction false} LoopFailsLast(known: set<string>, acc: seq<Stored>, attempt: nat, batch: nat -> Batch)
    requires attempt <= MaxAttempts && |acc| <= TargetTemplates
    ensures Loop(known, acc, attempt, batch).Failed? ==> batch(MaxAttempts) == BatchError(Loop(known, acc, attempt, batch).message)
    decreases MaxAttempts - attempt
  {
    if |acc| < TargetTemplates && attempt < MaxAttempts {
      var a := attempt + 1;
      match batch(a)
      case BatchError(m) =>
        if a < MaxAttempts {
          LoopFailsLast(known, acc, a, batch);
        }
      case Fetched(b) =>
        var f := Fresh(known, b);
        if |acc + f.0| < TargetTemplates {
          LoopFailsLast(f.1, acc + f.0, a, batch);
        }
    }
  }

  /** An error on every remaining attempt ends the loop with the last one. */
  lemma {:induction false} LoopAllErrors(known: set<string>, acc: seq<Stored>, attempt: nat, batch: nat -> Batch)
    requires attempt < MaxAttempts && |acc| < TargetTemplates
    requires forall a :: attempt < a <= MaxAttempts ==> batch(a).BatchError?
    ensures Loop(known, acc, attempt, batch) == Failed(batch(MaxAttempts).message)
    decreases MaxAttempts - attempt
  {
    if attempt + 1 < MaxAttempts {
      LoopAllErrors(known, acc, attempt + 1, batch);
    }
  }

  /** An error on an attempt before the fifth is swallowed: the loop goes
      on as if that attempt had fetched an empty batch. */
  lemma ErrorSwallowed(known: set<string>, acc: seq<Stored>, attempt: nat, batch: nat -> Batch, other: nat -> Batch)
    requires attempt + 1 < MaxAttempts && |acc| < TargetTemplates
    requires batch(attempt + 1).BatchError? && other(attempt + 1) == Fetched([])
    requires forall a :: attempt + 1 < a <= MaxAttempts ==> batch(a) == other(a)
    ensures Loop(known, acc, attempt, batch) == Loop(known, acc, attempt, other)
  {
    assert Fresh(known, []) == ([], known);
    assert acc + [] == acc;
    LoopSame(known, acc, attempt + 1, batch, other);
  }

  /** The loop from attempt `attempt` depends on the later batches only. */
  lemma {:induction false} LoopSame(known: set<string>, acc: seq<Stored>, attempt: nat, batch: nat -> Batch, other: nat -> Batch)
    requires attempt <= MaxAttempts && |acc| <= TargetTemplates
    requires forall a :: attempt < a <= MaxAttempts ==> batch(a) == other(a)
    ensures Loop(known, acc, attempt, batch) == Loop(known, acc, attempt, other)
    decreases MaxAttempts - attempt
  {
    if |acc| < TargetTemplates && attempt < MaxAttempts {
      var a := attempt + 1;
      assert batch(a) == other(a);
      match batch(a)
      case BatchError(m) =>
        if a < MaxAttempts {
          LoopSame(known, acc, a, batch, other);
        }
      case Fetched(b) =>
        var f := Fresh(known, b);
        if |acc + f.0| < TargetTemplates {
          LoopSame(f.1, acc + f.0, a, batch, other);
        }
    }
  }

  // ---------------------------------------------------------------- saving

  /** The first try, from `from` up to the last retry, whose save
      succeeded; `save(i, r)` is whether try `r` of template `i` went
      through. */
  function FirstSave(save: (nat, nat) -> bool, i: nat, from: nat): (r: Option<nat>)
    ensures r.Some? ==> from <= r.value <= MaxSaveRetries && save(i, r.value)
                        && forall k :: from <= k < r.value ==> !save(i, k)
    ensures r.None? ==> forall k :: from <= k <= MaxSaveRetries ==> !save(i, k)
    decreases MaxSaveRetries + 1 - from
  {
    if from > MaxSaveRetries then None
    else if save(i, from) then Some(from)
    else FirstSave(save, i, from + 1)
  }

  /** The counters after saving the first `n` templates: saved, failed, and
      the ids of the saved ones in order; `newId(i, r)` is the id drawn for
      try `r` of template `i`. */
  function SaveResults(n: nat, save: (nat, nat) -> bool, newId: (nat, nat) -> string): (r: (nat, nat, seq<string>))
    ensures r.0 + r.1 == n
    ensures |r.2| == r.0
  {
    if n == 0 then (0, 0, [])
    else
      var p := SaveResults(n - 1, save, newId);
      match FirstSave(save, n - 1, 0)
      case Some(k) => (p.0 + 1, p.1, p.2 + [newId(n - 1, k)])
      case None => (p.0, p.1 + 1, p.2)
  }

  /** Some template was saved exactly when one of its tries went through. */
  lemma {:induction false} SavedSome(n: nat, save: (nat, nat) -> bool, newId: (nat, nat) -> string)
    ensures SaveResults(n, save, newId).0 > 0 <==> exists i, k :: 0 <= i < n && 0 <= k <= MaxSaveRetries && save(i, k)
  {
    if n > 0 {
      SavedSome(n - 1, save, newId);
      if exists i, k :: 0 <= i < n && 0 <= k <= MaxSaveRetries && save(i, k) {
        var i, k :| 0 <= i < n && 0 <= k <= MaxSaveRetries && save(i, k);
        if i == n - 1 {
          assert FirstSave(save, n - 1, 0).Some?;
        } else {
          assert exists i', k' :: 0 <= i' < n - 1 && 0 <= k' <= MaxSaveRetries && save(i', k');
        }
      }
    }
  }

  /** The save loop over `n` templates, each tried at most three times. */
  method SaveAll(n: nat, save: (nat, nat) -> bool, newId: (nat, nat) -> string)
    returns (savedCount: nat, failedCount: nat, newIds: seq<string>)
    ensures (savedCount, failedCount, newIds) == SaveResults(n, save, newId)
    ensures savedCount + failedCount == n && |newIds| == savedCount
  {
    savedCount, failedCount, newIds := 0, 0, [];
    for i := 0 to n
      invariant (savedCount, failedCount, newIds) == SaveResults(i, save, newId)
    {
      var saved := false;
      var retry := 0;
      while retry <= MaxSaveRetries && !saved
        invariant retry <= MaxSaveRetries + 1
        invariant !saved ==> FirstSave(save, i, 0) == FirstSave(save, i, retry)
        invariant !saved && retry <= MaxSaveRetries ==> (savedCount, failedCount, newIds) == SaveResults(i, save, newId)
        invariant !saved && retry > MaxSaveRetries ==> (savedCount, failedCount, newIds) == SaveResults(i + 1, save, newId)
        invariant saved ==> (savedCount, failedCount, newIds) == SaveResults(i + 1, save, newId)
        decreases MaxSaveRetries + 1 - retry
      {
        var id := newId(i, retry);
        if save(i, retry) {
          savedCount := savedCount + 1;
          saved := true;
          newIds := newIds + [id];
        } else if retry == MaxSaveRetries {
          failedCount := failedCount + 1;
        }
        retry := retry + 1;
      }
    }
  }

  // ---------------------------------------------------------------- the report

  const NoNewMessage: string := "No new templates found after multiple attempts. All fetched templates were duplicates."
  const SaveFailedMessage: string := "Failed to save templates. Check console for details."

  function FetchFailedMessage(m: string): string
  {
    "Failed to fetch templates: " + m
  }

  /** `Successfully fetched and saved ${savedCount} templates!`, with the
      failures appended when there were any. */
  function SavedMessage(saved: nat, failed: nat): string
  {
    "Successfully fetched and saved " + NatToString(saved) + " templates!"
    + (if failed > 0 then " (" + NatToString(failed) + " failed)" else "")
  }

  function IdSet(ids: seq<string>): set<string>
  {
    set i | 0 <= i < |ids| :: ids[i]
  }

  /** What the page shows after the loop ended with `outcome`. */
  function ReportOf(outcome: Outcome, save: (nat, nat) -> bool, newId: (nat, nat) -> string): Report
  {
    match outcome
    case Failed(m) => Failure(FetchFailedMessage(m))
    case Accepted(templates, _) =>
      if |templates| == 0 then Failure(NoNewMessage)
      else
        var r := SaveResults(|templates|, save, newId);
        if r.0 > 0 then Success(SavedMessage(r.0, r.1), IdSet(r.2)) else Failure(SaveFailedMessage)
  }

  /** `fetchTemplates(source)` with the database available: `existing` is
      what the store holds, `batch` the fetcher, `save` and `newId` the
      store's transactions and id generator. */
  method FetchTemplates(existing: seq<Stored>, batch: nat -> Batch, save: (nat, nat) -> bool, newId: (nat, nat) -> string)
    returns (report: Report)
    ensures report == ReportOf(Loop(KnownUrls(existing), [], 0, batch), save, newId)
  {
    var outcome := FetchNew(existing, batch);
    if outcome.Failed? {
      return Failure(FetchFailedMessage(outcome.message));
    }
    var templates := outcome.templates;
    if |templates| == 0 {
      return Failure(NoNewMessage);
    }
    var savedCount, failedCount, newIds := SaveAll(|templates|, save, newId);
    if savedCount > 0 {
      report := Success(SavedMessage(savedCount, failedCount), IdSet(newIds));
    } else {
      report := Failure(SaveFailedMessage);
    }
  }

  /** The page reports success exactly when the loop accepted templates and
      some save went through; it then names as many saved templates as ids
      it keeps, and reports failures only when some template failed all
      tries. */
  lemma ReportSuccess(outcome: Outcome, save: (nat, nat) -> bool, newId: (nat, nat) -> string)
    ensures ReportOf(outcome, save, newId).Success? <==>
              outcome.Accepted? && exists i, k :: 0 <= i < |outcome.templates| && 0 <= k <= MaxSaveRetries && save(i, k)
  {
    if outcome.Accepted? {
      SavedSome(|outcome.templates|, save, newId);
    }
  }

  /** No new templates means no save is tried and the duplicates message. */
  lemma NothingNewNothingSaved(existing: seq<Stored>, batch: nat -> Batch, save: (nat, nat) -> bool, newId: (nat, nat) -> string)
    requires forall a :: 1 <= a <= MaxAttempts ==> batch(a) == Fetched([])
    ensures ReportOf(Loop(KnownUrls(existing), [], 0, batch), save, newId) == Failure(NoNewMessage)
  {
    NothingNew(KnownUrls(existing), 0, batch);
  }

  lemma {:induction false} NothingNew(known: set<string>, attempt: nat, batch: nat -> Batch)
    requires attempt <= MaxAttempts
    requires forall a :: attempt < a <= MaxAttempts ==> batch(a) == Fetched([])
    ensures Loop(known, [], attempt, batch) == Accepted([], MaxAttempts)
    decreases MaxAttempts - attempt
  {
    if attempt < MaxAttempts {
      assert Fresh(known, []) == ([], known);
      var none: seq<Stored> := [];
      assert none + none == none;
      NothingNew(known, attempt + 1, batch);
    }
  }
}
