/** Reading context back from the transcript by similarity
    (`retrieve_context`). */
module Retrieval {
  import opened Wrappers
  import opened Text
  import opened Records
  import opened Backends

  /** `lines[i].strip().split(":", 1)[1]` raises `IndexError` on a line
      without a colon. */
  datatype RetrievalError = NoRoleSeparator(line: string)

  /** The search labels that `0 <= i < len(lines)` keeps, in search order. */
  function KeptHits(hits: seq<int>, n: nat): (kept: seq<int>)
    ensures |kept| <= |hits|
    ensures forall j :: 0 <= j < |kept| ==> 0 <= kept[j] < n
  {
    if hits == [] then []
    else (if 0 <= hits[0] < n then [hits[0]] else []) + KeptHits(hits[1..], n)
  }

  /** A label is kept exactly when the search returned it and it is a valid
      line position. */
  lemma {:induction false} KeptHitsMembers(hits: seq<int>, n: nat, i: int)
    ensures i in KeptHits(hits, n) <==> i in hits && 0 <= i < n
  {
    if hits != [] {
      KeptHitsMembers(hits[1..], n, i);
      assert hits == [hits[0]] + hits[1..];
    }
  }

  /** Filtering is done label by label, so it keeps the search order. */
  lemma {:induction false} KeptHitsAppend(a: seq<int>, b: seq<int>, n: nat)
    ensures KeptHits(a + b, n) == KeptHits(a, n) + KeptHits(b, n)
  {
    if a == [] {
      assert a + b == b;
    } else {
      assert (a + b)[0] == a[0];
      assert (a + b)[1..] == a[1..] + b;
      KeptHitsAppend(a[1..], b, n);
    }
  }

  /** When every label is a valid position, nothing is dropped. */
  lemma {:induction false} KeptHitsAllInRange(hits: seq<int>, n: nat)
    requires forall j :: 0 <= j < |hits| ==> 0 <= hits[j] < n
    ensures KeptHits(hits, n) == hits
  {
    if hits != [] {
      KeptHitsAllInRange(hits[1..], n);
      assert [hits[0]] + hits[1..] == hits;
    }
  }

  /** `line.strip().split(":", 1)[1]`, or `None` where Python raises. */
  function RoleContent(line: string): Option<string>
  {
    AfterFirstColon(Strip(line))
  }

  /** The text after the role prefix of each kept line, in order; the first
      line without a colon raises. */
  function EntriesAt(lines: seq<string>, kept: seq<int>): Result<seq<string>, RetrievalError>
    requires forall j :: 0 <= j < |kept| ==> 0 <= kept[j] < |lines|
  {
    if kept == [] then Ok([])
    else
      match RoleContent(lines[kept[0]])
      case None => Fail(NoRoleSeparator(lines[kept[0]]))
      case Some(entry) =>
        match EntriesAt(lines, kept[1..])
        case Fail(e) => Fail(e)
        case Ok(rest) => Ok([entry] + rest)
  }

  /** The list comprehension of `retrieve_context`: the search labels that
      are valid line positions are kept, and each kept line is split. */
  function RetrievedTexts(lines: seq<string>, hits: seq<int>): Result<seq<string>, RetrievalError>
  {
    EntriesAt(lines, KeptHits(hits, |lines|))
  }

  /** Splitting succeeds exactly when every kept line has a role prefix. */
  lemma {:induction false} EntriesAtOk(lines: seq<string>, kept: seq<int>)
    requires forall j :: 0 <= j < |kept| ==> 0 <= kept[j] < |lines|
    ensures EntriesAt(lines, kept).Ok? <==> forall j :: 0 <= j < |kept| ==> RoleContent(lines[kept[j]]).Some?
  {
    if kept != [] {
      var tail := kept[1..];
      EntriesAtOk(lines, tail);
      assert forall j :: 0 < j < |kept| ==> kept[j] == tail[j - 1];
      if RoleContent(lines[kept[0]]).Some? && EntriesAt(lines, tail).Fail? {
        var j :| 0 <= j < |tail| && RoleContent(lines[tail[j]]).None?;
        assert kept[j + 1] == tail[j];
      }
    }
  }

  /** When every kept line has a role prefix, the split holds one entry per
      kept line, in order. */
  lemma {:induction false} EntriesAtValues(lines: seq<string>, kept: seq<int>)
    requires forall j :: 0 <= j < |kept| ==> 0 <= kept[j] < |lines|
    requires forall j :: 0 <= j < |kept| ==> RoleContent(lines[kept[j]]).Some?
    ensures EntriesAt(lines, kept).Ok?
    ensures |EntriesAt(lines, kept).value| == |kept|
    ensures forall j :: 0 <= j < |kept| ==> EntriesAt(lines, kept).value[j] == RoleContent(lines[kept[j]]).value
  {
    if kept != [] {
      var tail := kept[1..];
      assert forall j :: 0 <= j < |tail| ==> tail[j] == kept[j + 1];
      EntriesAtValues(lines, tail);
      var e := RoleContent(lines[kept[0]]);
      var rest := EntriesAt(lines, tail);
      var r := [e.value] + rest.value;
      assert EntriesAt(lines, kept) == Ok(r);
      forall j | 0 < j < |kept| ensures r[j] == RoleContent(lines[kept[j]]).value {
        assert r[j] == rest.value[j - 1];
      }
    }
  }

  /** `retrieve_context(query, faiss_index, top_k)` over the transcript file
      (`None` when it does not exist) and the vectors of the loaded index. */
  function RetrieveContext(query: string, transcript: Option<string>, vectors: seq<Vec>,
                           svc: Services, topK: nat): Result<string, RetrievalError>
  {
    if transcript.None? then Ok("")
    else
      var lines := ReadLines(transcript.value);
      if lines == [] then Ok("")
      else
        var hits := svc.search(vectors, svc.embedQuery(query), topK);
        match RetrievedTexts(lines, hits)
        case Fail(e) => Fail(e)
        case Ok(texts) => Ok(Join("\n", texts))
  }

  /** The entries of the records at the kept labels, in label order. */
  function RecordEntries(recs: seq<Record>, kept: seq<int>): seq<string>
    requires forall j :: 0 <= j < |kept| ==> 0 <= kept[j] < |recs|
  {
    seq(|kept|, j requires 0 <= j < |kept| => RetrievedEntry(recs[kept[j]].text))
  }

  /** On the lines written for records the comprehension never raises and
      yields the entries of the records at the kept labels. */
  lemma RetrievedTextsOfRecords(recs: seq<Record>, hits: seq<int>)
    requires AllClean(recs)
    ensures RetrievedTexts(RecordLines(recs), hits) == Ok(RecordEntries(recs, KeptHits(hits, |recs|)))
  {
    var lines := RecordLines(recs);
    var kept := KeptHits(hits, |recs|);
    forall i | 0 <= i < |recs| ensures RoleContent(lines[i]) == Some(RetrievedEntry(recs[i].text)) {
      RoleContentOfRecord(recs[i]);
    }
    EntriesAtValues(lines, kept);
    var r := EntriesAt(lines, kept);
    var entries := RecordEntries(recs, kept);
    assert forall j :: 0 <= j < |kept| ==> r.value[j] == entries[j];
    assert r.value == entries;
    assert RetrievedTexts(lines, hits) == r;
  }

  /** On a transcript written from records, retrieval never fails: it joins,
      in search order, the entries of the records at the valid search labels,
      at most one per label returned. */
  lemma RetrieveFromRecords(query: string, recs: seq<Record>, vectors: seq<Vec>, svc: Services, topK: nat)
    requires AllClean(recs)
    ensures var hits := svc.search(vectors, svc.embedQuery(query), topK);
      var kept := KeptHits(hits, |recs|);
      && |kept| <= |hits|
      && RetrieveContext(query, Some(Concat(RecordLines(recs))), vectors, svc, topK)
           == Ok(Join("\n", RecordEntries(recs, kept)))
  {
    var hits := svc.search(vectors, svc.embedQuery(query), topK);
    TranscriptLines(recs);
    if recs != [] {
      RetrievedTextsOfRecords(recs, hits);
    }
  }
}
