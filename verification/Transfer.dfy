/**
 * The texts that travel: the JSON of a snapshot, the JSON of one page of it, and the JSON block
 * in the agent's instructions (src/aida_agent/config.py).
 */
module Transfer {
  import opened Wrappers
  import J = Json
  import H = History
  import P = Paging
  import Utf8

  function RoleName(role: H.Role): string {
    match role case User => "user" case Assistant => "assistant" case Other => "other"
  }

  function RowJson(row: H.Row): J.Json {
    J.Obj([J.Field("id", J.Str(row.id)), J.Field("segment_id", J.Str(row.segment)),
           J.Field("role", J.Str(RoleName(row.role))), J.Field("content", J.Arr([J.Str(row.text)])),
           J.Field("is_final", J.Bool(row.final)), J.Field("sequence", J.Num(row.sequence))])
  }

  function RowsJson(rows: seq<H.Row>): seq<J.Json> {
    seq(|rows|, i requires 0 <= i < |rows| => RowJson(rows[i]))
  }

  function SnapshotJson(callId: string, rows: seq<H.Row>): J.Json {
    J.Obj([J.Field("callId", J.Str(callId)), J.Field("items", J.Arr(RowsJson(rows)))])
  }

  /** The text frozen for an observer. */
  function SnapshotText(callId: string, rows: seq<H.Row>): string {
    J.Dumps(SnapshotJson(callId, rows), J.COMPACT)
  }

  lemma SnapshotTextStarts(callId: string, rows: seq<H.Row>)
    ensures SnapshotText(callId, rows) != ""
  {
    J.DumpsStart(SnapshotJson(callId, rows), J.COMPACT, "");
  }

  /**
   * An observer that follows nextOffset to the end and parses what it collected has the snapshot
   * of the moment it started, wherever the pages were cut.
   */
  lemma CollectedParses(ss: seq<P.State>, asks: seq<P.Ask>, i: nat, j: nat, callId: string, rows: seq<H.Row>)
    requires P.IsRun(ss, asks) && i <= j < |asks| && P.Follows(ss, asks, i, j)
    requires asks[i].request.Request? && asks[i].request.offset == 0 && P.ReplyAt(ss, asks, i).Page?
    ensures asks[i].current == SnapshotText(callId, rows) && P.Follow(ss, asks, i, j).next.None? ==>
              J.Loads(P.Follow(ss, asks, i, j).collected) == Some(SnapshotJson(callId, rows))
  {
    if asks[i].current == SnapshotText(callId, rows) {
      SnapshotTextStarts(callId, rows);
      P.TransferCompletes(ss, asks, i, j);
      J.LoadsDumps(SnapshotJson(callId, rows), J.COMPACT);
    }
  }

  // ----- the size of a page -----

  function PageJson(token: string, text: string, next: Option<nat>): J.Json {
    J.Obj([J.Field("snapshotId", J.Str(token)), J.Field("text", J.Str(text)),
           J.Field("nextOffset", match next case None => J.Null case Some(n) => J.Num(n))])
  }

  lemma {:induction false} EscapedTwice(s: string)
    requires forall c :: c in s ==> J.Printable(c)
    ensures |J.Escape(s)| <= 2 * |s|
  {
    if s != "" {
      assert J.Printable(s[0]);
      EscapedTwice(s[1..]);
    }
  }

  lemma {:induction false} DecimalLength(n: nat, digits: nat)
    requires digits > 0 && n < Power10(digits)
    ensures |J.Decimal(n)| <= digits
  {
    if n >= 10 {
      DecimalLength(n / 10, digits - 1);
    }
  }

  function Power10(k: nat): nat { if k == 0 then 1 else 10 * Power10(k - 1) }

  /** Plain ASCII text has one byte a character. */
  lemma {:induction false} AsciiBytes(s: string)
    requires forall c :: c in s ==> J.Printable(c)
    ensures |Utf8.Encode(s)| == |s|
  {
    if s != "" {
      assert J.Printable(s[0]);
      AsciiBytes(s[1..]);
    }
  }

  lemma StringLength(s: string)
    requires forall c :: c in s ==> J.Printable(c)
    ensures |J.Quote(s)| <= 2 * |s| + 2 && |J.Dumps(J.Str(s), J.DEFAULT)| <= 2 * |s| + 2
  {
    EscapedTwice(s);
  }

  lemma LastLength(f: J.Field)
    ensures |J.DumpFields([f], J.DEFAULT)| == |J.Quote(f.key)| + 2 + |J.Dumps(f.value, J.DEFAULT)|
  {
  }

  lemma MoreLength(f: J.Field, fields: seq<J.Field>)
    requires fields != []
    ensures |J.DumpFields([f] + fields, J.DEFAULT)|
            == |J.Quote(f.key)| + 2 + |J.Dumps(f.value, J.DEFAULT)| + 2 + |J.DumpFields(fields, J.DEFAULT)|
  {
    assert ([f] + fields)[1..] == fields;
  }

  lemma FieldsLength(a: J.Field, b: J.Field, c: J.Field)
    ensures
      |J.DumpFields([a, b, c], J.DEFAULT)|
      == |J.Quote(a.key)| + |J.Dumps(a.value, J.DEFAULT)| + |J.Quote(b.key)| + |J.Dumps(b.value, J.DEFAULT)|
         + |J.Quote(c.key)| + |J.Dumps(c.value, J.DEFAULT)| + 10
  {
    assert [a, b, c] == [a] + [b, c] && [b, c] == [b] + [c];
    MoreLength(a, [b, c]);
    MoreLength(b, [c]);
    LastLength(c);
  }

  lemma NextLength(next: Option<nat>)
    requires next.Some? ==> next.value <= 2097152
    ensures |J.Dumps(match next case None => J.Null case Some(n) => J.Num(n), J.DEFAULT)| <= 7
  {
    if next.Some? {
      assert Power10(7) == 10000000 by { assert Power10(3) == 1000; assert Power10(5) == 100000; }
      DecimalLength(next.value, 7);
    }
  }

  lemma ObjectLength(a: J.Field, b: J.Field, c: J.Field)
    ensures
      |J.Dumps(J.Obj([a, b, c]), J.DEFAULT)|
      == |J.Quote(a.key)| + |J.Dumps(a.value, J.DEFAULT)| + |J.Quote(b.key)| + |J.Dumps(b.value, J.DEFAULT)|
         + |J.Quote(c.key)| + |J.Dumps(c.value, J.DEFAULT)| + 12
  {
    FieldsLength(a, b, c);
  }

  /** No character is escaped to more than a surrogate pair. */
  lemma {:induction false} EscapeAtMost(s: string)
    ensures |J.Escape(s)| <= 12 * |s|
  {
    if s != "" {
      EscapeAtMost(s[1..]);
    }
  }

  lemma KeyLength(key: string)
    requires |key| <= 10
    ensures |J.Quote(key)| <= 122
  {
    EscapeAtMost(key);
  }

  lemma PageLength(token: string, text: string, next: Option<nat>)
    requires forall c :: c in token ==> J.Printable(c)
    requires forall c :: c in text ==> J.Printable(c)
    requires next.Some? ==> next.value <= 2097152
    ensures |J.Dumps(PageJson(token, text, next), J.DEFAULT)| <= 2 * |token| + 2 * |text| + 400
  {
    var last := match next case None => J.Null case Some(n) => J.Num(n);
    ObjectLength(J.Field("snapshotId", J.Str(token)), J.Field("text", J.Str(text)), J.Field("nextOffset", last));
    StringLength(token);
    StringLength(text);
    KeyLength("snapshotId");
    KeyLength("text");
    KeyLength("nextOffset");
    NextLength(next);
  }

  lemma WrittenBytes(v: J.Json)
    ensures |Utf8.Encode(J.Dumps(v, J.DEFAULT))| == |J.Dumps(v, J.DEFAULT)|
  {
    J.DumpsPrintable(v, J.DEFAULT);
    AsciiBytes(J.Dumps(v, J.DEFAULT));
  }

  /**
   * One page of a frozen text, escaped a second time into its response, stays below the 15 KiB
   * an RPC may return; token is a uuid.
   */
  lemma ResponseFits(token: string, text: string, next: Option<nat>)
    requires |token| <= 36 && |text| <= 6000
    requires forall c :: c in token + text ==> J.Printable(c)
    requires next.Some? ==> next.value <= 2097152
    ensures |Utf8.Encode(J.Dumps(PageJson(token, text, next), J.DEFAULT))| < 15 * 1024
  {
    assert forall c :: c in token ==> c in token + text;
    assert forall c :: c in text ==> c in token + text;
    PageLength(token, text, next);
    WrittenBytes(PageJson(token, text, next));
  }

  predicate Uuid(s: string) { |s| == 36 && forall c :: c in s ==> J.Printable(c) }

  /** Every page of every run fits, whatever the call id and the texts of the snapshots hold. */
  lemma PagesFit(ss: seq<P.State>, asks: seq<P.Ask>, i: nat, callId: string, snapshots: seq<seq<H.Row>>)
    requires P.IsRun(ss, asks) && i < |asks| && P.ReplyAt(ss, asks, i).Page? && |snapshots| == |asks|
    requires forall k :: 0 <= k < |asks| ==>
               Uuid(asks[k].uuid) && asks[k].current == SnapshotText(callId, snapshots[k])
    ensures
      var page := P.ReplyAt(ss, asks, i);
      |Utf8.Encode(J.Dumps(PageJson(page.token, page.text, page.next), J.DEFAULT))| < 15 * 1024
  {
    var page := P.ReplyAt(ss, asks, i);
    P.PagesAreSlices(ss, asks, i);
    var f: nat :| f <= i && P.PageOf(ss, asks, f, i);
    J.DumpsPrintable(SnapshotJson(callId, snapshots[f]), J.COMPACT);
    assert forall c :: c in page.text ==> c in asks[f].current;
    ResponseFits(page.token, page.text, page.next);
  }

  // ----- the profile block of the instructions -----

  datatype Profile = Profile(
    businessName: string, locale: string, tone: string, objective: string, prompt: string,
    openingStatement: string, transferStatement: string, failedTransferStatement: string)

  function ProfileJson(p: Profile): J.Json {
    J.Obj([J.Field("businessName", J.Str(p.businessName)), J.Field("locale", J.Str(p.locale)),
           J.Field("tone", J.Str(p.tone)), J.Field("objective", J.Str(p.objective)),
           J.Field("prompt", J.Str(p.prompt)), J.Field("openingStatement", J.Str(p.openingStatement)),
           J.Field("transferStatement", J.Str(p.transferStatement)),
           J.Field("failedTransferStatement", J.Str(p.failedTransferStatement))])
  }

  /** rules: the fixed text, which ends before the JSON block. */
  function Instructions(rules: string, p: Profile): string { rules + J.Dumps(ProfileJson(p), J.DEFAULT) }

  /**
   * Whatever the profile says, the instructions are the fixed rules followed by one line of
   * printable ASCII that parses back to exactly the profile's fields.
   */
  lemma ProfileIsOneValue(rules: string, p: Profile)
    ensures rules <= Instructions(rules, p)
    ensures
      var block := Instructions(rules, p)[|rules|..];
      (forall c :: c in block ==> J.Printable(c)) && J.Loads(block) == Some(ProfileJson(p))
  {
    var block := J.Dumps(ProfileJson(p), J.DEFAULT);
    assert Instructions(rules, p)[|rules|..] == block;
    J.DumpsPrintable(ProfileJson(p), J.DEFAULT);
    J.LoadsDumps(ProfileJson(p), J.DEFAULT);
  }

  /** Different profiles never give the same instructions. */
  lemma ProfilesDiffer(rules: string, p: Profile, q: Profile)
    requires Instructions(rules, p) == Instructions(rules, q)
    ensures p == q
  {
    ProfileIsOneValue(rules, p);
    ProfileIsOneValue(rules, q);
  }

  /** The block's fields, by name, are the profile's. */
  lemma ProfileFields(p: Profile)
    ensures
      var fields := ProfileJson(p).fields;
      && |fields| == 8
      && J.Get(fields, "businessName") == Some(J.Str(p.businessName))
      && J.Get(fields, "locale") == Some(J.Str(p.locale))
      && J.Get(fields, "tone") == Some(J.Str(p.tone)) && J.Get(fields, "objective") == Some(J.Str(p.objective))
      && J.Get(fields, "prompt") == Some(J.Str(p.prompt))
      && J.Get(fields, "openingStatement") == Some(J.Str(p.openingStatement))
      && J.Get(fields, "transferStatement") == Some(J.Str(p.transferStatement))
      && J.Get(fields, "failedTransferStatement") == Some(J.Str(p.failedTransferStatement))
  {
    var fields := ProfileJson(p).fields;
    assert |fields[0].key| == 12 && |fields[1].key| == 6 && |fields[2].key| == 4 && |fields[3].key| == 9;
    assert |fields[5].key| == 16 && |fields[6].key| == 17 && |fields[7].key| == 23;
    assert |fields[4].key| == 6 && fields[4].key[0] != fields[1].key[0];
    J.GetAt(fields, 0);
    J.GetAt(fields, 1);
    J.GetAt(fields, 2);
    J.GetAt(fields, 3);
    J.GetAt(fields, 4);
    J.GetAt(fields, 5);
    J.GetAt(fields, 6);
    J.GetAt(fields, 7);
  }

  lemma PageFields(token: string, text: string, next: Option<nat>)
    ensures
      var fields := PageJson(token, text, next).fields;
      && J.Get(fields, "snapshotId") == Some(J.Str(token)) && J.Get(fields, "text") == Some(J.Str(text))
      && J.Get(fields, "nextOffset") == Some(if next.Some? then J.Num(next.value) else J.Null)
  {
    var fields := PageJson(token, text, next).fields;
    assert |fields[0].key| == 10 && |fields[1].key| == 4 && |fields[2].key| == 10;
    assert fields[0].key[0] != fields[2].key[0];
    J.GetAt(fields, 0);
    J.GetAt(fields, 1);
    J.GetAt(fields, 2);
  }

  /** A page's response reads back as its token, its piece of text and where the next one starts. */
  lemma PageReads(token: string, text: string, next: Option<nat>)
    ensures
      var page := J.Loads(J.Dumps(PageJson(token, text, next), J.DEFAULT));
      && page.Some? && page.value.Obj?
      && J.Get(page.value.fields, "snapshotId") == Some(J.Str(token))
      && J.Get(page.value.fields, "text") == Some(J.Str(text))
      && J.Get(page.value.fields, "nextOffset") == Some(if next.Some? then J.Num(next.value) else J.Null)
  {
    PageFields(token, text, next);
    Reads(PageJson(token, text, next));
  }

  lemma Reads(v: J.Json)
    ensures J.Loads(J.Dumps(v, J.DEFAULT)) == Some(v)
  {
    J.LoadsDumps(v, J.DEFAULT);
  }
}
