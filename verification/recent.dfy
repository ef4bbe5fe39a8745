/** The recency window over the transcript (`get_last_messages`). */
module Recent {
  import opened Wrappers
  import opened Text
  import opened Records

  /** Python's normalisation of a slice start against a list of length `len`:
      a negative start counts from the end, and both ends are clamped. */
  function SliceStart(start: int, len: nat): (k: nat)
    ensures k <= len
  {
    if start < 0 then (if start + len < 0 then 0 else start + len)
    else if start > len then len
    else start
  }

  /** `[line.strip() for line in lines]`. */
  function StripEach(lines: seq<string>): seq<string>
  {
    seq(|lines|, i requires 0 <= i < |lines| => Strip(lines[i]))
  }

  /** `[line.strip() for line in lines[-num_lines:]]`. */
  function LastLines(lines: seq<string>, numLines: int): seq<string>
  {
    StripEach(lines[SliceStart(-numLines, |lines|)..])
  }

  /** `get_last_messages(num_lines)`: the window joined by newlines, or `""`
      when there is no transcript file. */
  function GetLastMessages(transcript: Option<string>, numLines: int): string
  {
    if transcript.None? then ""
    else Join("\n", LastLines(ReadLines(transcript.value), numLines))
  }

  /** For a positive window size `n` the window is the last `min(n, len(lines))`
      lines, stripped, in file order. */
  lemma LastLinesWindow(lines: seq<string>, n: int)
    requires n >= 1
    ensures var m := if n < |lines| then n else |lines|;
      LastLines(lines, n) == StripEach(lines)[|lines| - m..]
  {
    var m := if n < |lines| then n else |lines|;
    assert SliceStart(-n, |lines|) == |lines| - m;
  }

  /** Python's `lines[-0:]` is the whole list: a window of size 0 holds every
      line. */
  lemma LastLinesZero(lines: seq<string>)
    ensures LastLines(lines, 0) == StripEach(lines)
  {
    assert lines[0..] == lines;
  }

  /** The last `n` records, or all of them when there are fewer. */
  function LastRecords(recs: seq<Record>, n: nat): (r: seq<Record>)
    ensures |r| <= n && |r| <= |recs| && r == recs[|recs| - |r|..]
    ensures |r| == n || r == recs
  {
    if n < |recs| then recs[|recs| - n..] else recs
  }

  /** The records as the window shows them. */
  function StrippedRecords(recs: seq<Record>): seq<string>
  {
    seq(|recs|, k requires 0 <= k < |recs| => StrippedRecord(recs[k]))
  }

  lemma StrippedRecordsSuffix(recs: seq<Record>, k: nat)
    requires k <= |recs|
    ensures StrippedRecords(recs)[k..] == StrippedRecords(recs[k..])
  {
  }

  /** Stripping the lines written for records gives each record as `role:`
      followed by its entry. */
  lemma StripRecordLines(recs: seq<Record>)
    requires AllClean(recs)
    ensures StripEach(RecordLines(recs)) == StrippedRecords(recs)
  {
    forall k | 0 <= k < |recs| ensures Strip(RecordLine(recs[k])) == StrippedRecord(recs[k]) {
      StripRecordLine(recs[k]);
    }
  }

  /** The window over the lines written for records shows the last
      `min(n, |recs|)` of them. */
  lemma LastLinesOfRecords(recs: seq<Record>, n: nat)
    requires AllClean(recs)
    requires n >= 1
    ensures LastLines(RecordLines(recs), n) == StrippedRecords(LastRecords(recs, n))
  {
    LastLinesWindow(RecordLines(recs), n);
    StripRecordLines(recs);
    StrippedRecordsSuffix(recs, |recs| - |LastRecords(recs, n)|);
  }

  /** On a transcript written from records, the window shows the last
      `min(n, |recs|)` records, oldest first, each as `role:` followed by its
      entry. */
  lemma RecentFromRecords(recs: seq<Record>, n: nat)
    requires AllClean(recs)
    requires n >= 1
    ensures GetLastMessages(Some(Concat(RecordLines(recs))), n) == Join("\n", StrippedRecords(LastRecords(recs, n)))
  {
    TranscriptLines(recs);
    LastLinesOfRecords(recs, n);
  }

  /** A window at least as large as the transcript shows every record, in
      the order they were stored. */
  lemma RecentShowsAll(recs: seq<Record>, n: nat)
    requires AllClean(recs)
    requires 1 <= n && |recs| <= n
    ensures GetLastMessages(Some(Concat(RecordLines(recs))), n) == Join("\n", StrippedRecords(recs))
  {
    RecentFromRecords(recs, n);
    assert LastRecords(recs, n) == recs;
  }
}
