/** The per-user transcript file: every stored message becomes one line
    `"{role}: {clean}\n"` (app.py, `store_vector_message`), and the file is read
    back with `readlines` (app.py, `retrieve_context` and `get_last_messages`). */
module Records {
  import opened Wrappers
  import opened Text

  /** The two roles the chat turn stores messages under. */
  datatype Role = User | Bot

  function RoleName(role: Role): string
  {
    match role
    case User => "user"
    case Bot => "bot"
  }

  /** One stored message: its role and its whitespace-normalised text. */
  datatype Record = Record(role: Role, text: string)

  /** The transcript line written for a record. */
  function RecordLine(rec: Record): string
  {
    RoleName(rec.role) + ": " + rec.text + "\n"
  }

  /** The transcript lines written for a sequence of records, in order. */
  function RecordLines(recs: seq<Record>): seq<string>
  {
    seq(|recs|, i requires 0 <= i < |recs| => RecordLine(recs[i]))
  }

  /** Every record holds normalised text, as `store_vector_message` writes it. */
  predicate AllClean(recs: seq<Record>)
  {
    forall i :: 0 <= i < |recs| ==> IsClean(recs[i].text)
  }

  /** What retrieval yields for a stored record: the text after the role's
      colon. Because the line is stripped before it is split, a non-empty text
      keeps the space that followed the colon. */
  function RetrievedEntry(text: string): string
  {
    if text == [] then "" else " " + text
  }

  /** A transcript line, stripped, as the recency window shows it. */
  function StrippedRecord(rec: Record): string
  {
    RoleName(rec.role) + ":" + RetrievedEntry(rec.text)
  }

  /** A record with normalised text is written as exactly one line. */
  lemma RecordLineIsLine(rec: Record)
    requires IsClean(rec.text)
    ensures IsLine(RecordLine(rec))
  {
    var pre := RoleName(rec.role) + ": ";
    var l := RecordLine(rec);
    assert l == pre + rec.text + "\n";
    forall i | 0 <= i < |l| - 1 ensures l[i] != '\n' {
      if i < |pre| {
        assert l[i] == pre[i];
      } else {
        assert l[i] == rec.text[i - |pre|];
      }
    }
  }

  /** Appending a record appends its line to the file, and a clean record
      keeps the records clean. */
  lemma AppendRecord(recs: seq<Record>, rec: Record)
    ensures RecordLines(recs + [rec]) == RecordLines(recs) + [RecordLine(rec)]
    ensures Concat(RecordLines(recs + [rec])) == Concat(RecordLines(recs)) + RecordLine(rec)
    ensures AllClean(recs) && IsClean(rec.text) ==> AllClean(recs + [rec])
  {
    assert RecordLines(recs + [rec]) == RecordLines(recs) + [RecordLine(rec)];
    ConcatAppend(RecordLines(recs), RecordLine(rec));
  }

  /** Reading back a transcript written from records gives one line per record,
      in the order they were stored. */
  lemma TranscriptLines(recs: seq<Record>)
    requires AllClean(recs)
    ensures ReadLines(Concat(RecordLines(recs))) == RecordLines(recs)
  {
    forall i | 0 <= i < |recs| ensures IsLine(RecordLines(recs)[i]) {
      RecordLineIsLine(recs[i]);
    }
    ReadLinesOfConcat(RecordLines(recs));
  }

  /** Stripping a stored line removes its newline and, when the text is
      empty, the space after the colon; nothing else. */
  lemma StripRecordLine(rec: Record)
    requires IsClean(rec.text)
    ensures Strip(RecordLine(rec)) == StrippedRecord(rec)
  {
    var name := RoleName(rec.role);
    assert name[0] == 'u' || name[0] == 'b';
    var body := name + ":" + RetrievedEntry(rec.text);
    var l := RecordLine(rec);
    LStripNone(l);
    if rec.text == [] {
      assert l == body + [' '] + ['\n'];
      RStripSpace(body + [' '], '\n');
      RStripSpace(body, ' ');
    } else {
      assert l == body + ['\n'];
      RStripSpace(body, '\n');
      assert body[|body| - 1] == rec.text[|rec.text| - 1];
    }
    RStripNone(body);
  }

  /** Role names hold no colon, so a stored line splits right after its role. */
  lemma RoleNameHasNoColon(role: Role)
    ensures ':' !in RoleName(role)
  {
    if role == User {
      assert RoleName(role) == ['u', 's', 'e', 'r'];
    } else {
      assert RoleName(role) == ['b', 'o', 't'];
    }
  }

  /** `line.strip().split(":", 1)[1]` never fails on a stored line and yields
      the record's entry. */
  lemma RoleContentOfRecord(rec: Record)
    requires IsClean(rec.text)
    ensures AfterFirstColon(Strip(RecordLine(rec))) == Some(RetrievedEntry(rec.text))
  {
    RoleNameHasNoColon(rec.role);
    AfterFirstColonOf(RoleName(rec.role), RetrievedEntry(rec.text));
    StripRecordLine(rec);
  }
}
