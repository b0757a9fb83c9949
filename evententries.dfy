/** The message event log of a load-test client (client.MessageEventEntry)
    and the CSV row parser both csv-processor programs use. */
module EventEntries {
  import opened Wrappers
  import opened GoNum
  import opened GoStrings

  /** client.Type; Sent is the zero value. */
  datatype EventType = Sent | Received

  /** One logged event; the timestamp is in microseconds since the Unix
      epoch, the resolution the CSV files carry. */
  datatype MessageEventEntry = MessageEventEntry(
    MessageId: uint64, SenderId: string, ClientId: string, Type: EventType, TimeStamp: int64)

  /** The zero time.Time (January 1, year 1, UTC) in Unix microseconds. */
  const ZeroTime: int64 := -62135596800000000

  /** The zero MessageEventEntry a row starts from. */
  const ZeroEntry := MessageEventEntry(0, "", "", Sent, ZeroTime)

  /** t.Sub(since).Nanoseconds(): the elapsed time in nanoseconds, saturated
      to the int64 range as Go's Duration arithmetic does. */
  function ElapsedNs(since: int64, t: int64): (d: int64)
    ensures -TwoTo63 <= (t - since) * 1000 < TwoTo63 ==> d == (t - since) * 1000
    ensures (t - since) * 1000 >= TwoTo63 ==> d == TwoTo63 - 1
    ensures (t - since) * 1000 < -TwoTo63 ==> d == -TwoTo63
  {
    Clamp64((t - since) * 1000)
  }

  /** The result files both programs keep from a directory walk. */
  function IsCsv(path: string): bool {
    HasSuffix(path, ".csv")
  }

  /** Why a row was rejected: the field that failed to parse. */
  datatype ParseError = BadMessageId(field: string) | UnknownType(field: string) | BadTimeStamp(field: string)

  /** Whether column `j` of a row may hold `field`. Columns other than
      0, 3 and 4 accept anything. */
  predicate ColumnValid(j: nat, field: string) {
    if j == 0 then ParseUint(field).Some?
    else if j == 3 then field == "Sent" || field == "Received"
    else if j == 4 then ParseInt(field).Some?
    else true
  }

  /** The event type named by a valid column-3 field. */
  function TypeOf(field: string): EventType {
    if field == "Received" then Received else Sent
  }

  /** One step of the column switch: store column `j` into `e`. */
  function SetField(e: MessageEventEntry, j: nat, field: string): (r: Result<MessageEventEntry, ParseError>)
    ensures r.Success? <==> ColumnValid(j, field)
  {
    if j == 0 then
      match ParseUint(field)
      case None => Failure(BadMessageId(field))
      case Some(n) => Success(e.(MessageId := n))
    else if j == 1 then Success(e.(SenderId := field))
    else if j == 2 then Success(e.(ClientId := field))
    else if j == 3 then
      if field == "Sent" then Success(e.(Type := Sent))
      else if field == "Received" then Success(e.(Type := Received))
      else Failure(UnknownType(field))
    else if j == 4 then
      match ParseInt(field)
      case None => Failure(BadTimeStamp(field))
      case Some(t) => Success(e.(TimeStamp := t))
    else Success(e)
  }

  /** The column loop from column `j` on, starting from entry `e`. */
  function ParseFields(line: seq<string>, j: nat, e: MessageEventEntry): Result<MessageEventEntry, ParseError>
    requires j <= |line|
    decreases |line| - j
  {
    if j == |line| then Success(e)
    else
      match SetField(e, j, line[j])
      case Failure(err) => Failure(err)
      case Success(e') => ParseFields(line, j + 1, e')
  }

  /** One data row. */
  function ParseRow(line: seq<string>): Result<MessageEventEntry, ParseError> {
    ParseFields(line, 0, ZeroEntry)
  }

  function Prepend<T>(xs: seq<T>, r: Result<seq<T>, ParseError>): Result<seq<T>, ParseError> {
    match r
    case Success(ys) => Success(xs + ys)
    case Failure(err) => Failure(err)
  }

  /** The rows from index `i` on. */
  function ParseRowsFrom(data: seq<seq<string>>, i: nat): Result<seq<MessageEventEntry>, ParseError>
    requires i <= |data|
    decreases |data| - i
  {
    if i == |data| then Success([])
    else
      match ParseRow(data[i])
      case Failure(err) => Failure(err)
      case Success(e) => Prepend([e], ParseRowsFrom(data, i + 1))
  }

  /** All rows but the header row 0. */
  function ParseEntries(data: seq<seq<string>>): Result<seq<MessageEventEntry>, ParseError> {
    if |data| <= 1 then Success([]) else ParseRowsFrom(data, 1)
  }

  /** parseMessageEventEntries */
  method ParseMessageEventEntries(data: seq<seq<string>>) returns (r: Result<seq<MessageEventEntry>, ParseError>)
    ensures r == ParseEntries(data)
  {
    var entries: seq<MessageEventEntry> := [];
    for i := 0 to |data|
      invariant i == 0 ==> entries == []
      invariant i >= 1 ==> ParseEntries(data) == Prepend(entries, ParseRowsFrom(data, i))
    {
      if i <= 0 {
        PrependEmpty(ParseRowsFrom(data, 1));
        continue;
      }
      var entry := ZeroEntry;
      var line := data[i];
      for j := 0 to |line|
        invariant ParseFields(line, j, entry) == ParseRow(line)
      {
        var step := SetField(entry, j, line[j]);
        if step.Failure? {
          assert ParseRow(line) == Failure(step.error);
          return Failure(step.error);
        }
        entry := step.value;
      }
      assert ParseRow(line) == Success(entry);
      PrependSnoc(entries, entry, ParseRowsFrom(data, i + 1));
      entries := entries + [entry];
    }
    assert entries + [] == entries;
    r := Success(entries);
  }

  lemma PrependEmpty<T>(r: Result<seq<T>, ParseError>)
    ensures Prepend([], r) == r
  {
    if r.Success? {
      assert [] + r.value == r.value;
    }
  }

  lemma PrependSnoc<T>(xs: seq<T>, x: T, r: Result<seq<T>, ParseError>)
    ensures Prepend(xs, Prepend([x], r)) == Prepend(xs + [x], r)
  {
    if r.Success? {
      assert xs + ([x] + r.value) == (xs + [x]) + r.value;
    }
  }

  // ---------------------------------------------------------------------
  // Properties of the row parser

  /** The column loop fails exactly when some remaining column is invalid,
      and then with the error of the first invalid one. */
  lemma {:induction false} ParseFieldsFails(line: seq<string>, j: nat, e: MessageEventEntry)
    requires j <= |line|
    ensures ParseFields(line, j, e).Failure? <==> exists c :: j <= c < |line| && !ColumnValid(c, line[c])
    ensures ParseFields(line, j, e).Failure? ==>
      exists c :: j <= c < |line| && !ColumnValid(c, line[c])
        && (forall d :: j <= d < c ==> ColumnValid(d, line[d]))
        && exists e' :: SetField(e', c, line[c]) == Failure(ParseFields(line, j, e).error)
    decreases |line| - j
  {
    if j < |line| {
      match SetField(e, j, line[j])
      case Failure(err) =>
      case Success(e') =>
        ParseFieldsFails(line, j + 1, e');
    }
  }

  /** On success, each of columns 0 to 4 is taken from the row when the row
      has it and from `e` when it does not (or was already consumed). */
  lemma {:induction false} ParseFieldsColumns(line: seq<string>, j: nat, e: MessageEventEntry)
    requires j <= |line| && ParseFields(line, j, e).Success?
    ensures var r := ParseFields(line, j, e).value;
      && (if j == 0 < |line| then Some(r.MessageId) == ParseUint(line[0]) else r.MessageId == e.MessageId)
      && r.SenderId == (if j <= 1 < |line| then line[1] else e.SenderId)
      && r.ClientId == (if j <= 2 < |line| then line[2] else e.ClientId)
      && r.Type == (if j <= 3 < |line| then TypeOf(line[3]) else e.Type)
      && (if j <= 4 < |line| then Some(r.TimeStamp) == ParseInt(line[4]) else r.TimeStamp == e.TimeStamp)
    decreases |line| - j
  {
    if j < |line| {
      ParseFieldsColumns(line, j + 1, SetField(e, j, line[j]).value);
    }
  }

  /** A row fails exactly when one of its first five columns is invalid. */
  lemma RowFails(line: seq<string>)
    ensures ParseRow(line).Failure? <==> exists c :: 0 <= c < |line| && c < 5 && !ColumnValid(c, line[c])
  {
    ParseFieldsFails(line, 0, ZeroEntry);
  }

  /** A parsed row holds its columns 0 to 4, with zero values for the
      columns the row does not have; later columns are ignored. */
  lemma RowColumns(line: seq<string>)
    requires ParseRow(line).Success?
    ensures var r := ParseRow(line).value;
      && (if |line| > 0 then Some(r.MessageId) == ParseUint(line[0]) else r.MessageId == 0)
      && r.SenderId == (if |line| > 1 then line[1] else "")
      && r.ClientId == (if |line| > 2 then line[2] else "")
      && r.Type == (if |line| > 3 then TypeOf(line[3]) else Sent)
      && (if |line| > 4 then Some(r.TimeStamp) == ParseInt(line[4]) else r.TimeStamp == ZeroTime)
  {
    ParseFieldsColumns(line, 0, ZeroEntry);
  }

  /** Columns past index 4 change nothing. */
  lemma {:induction false} ParseFieldsPastColumns(line: seq<string>, j: nat, e: MessageEventEntry, n: nat)
    requires 5 <= n <= j <= |line| && n <= |line|
    ensures ParseFields(line, j, e) == Success(e)
    decreases |line| - j
  {
    if j < |line| {
      ParseFieldsPastColumns(line, j + 1, e, n);
    }
  }

  lemma {:induction false} ParseFieldsPrefix(line: seq<string>, j: nat, e: MessageEventEntry)
    requires j <= 5 <= |line|
    ensures ParseFields(line, j, e) == ParseFields(line[..5], j, e)
    decreases 5 - j
  {
    if j == 5 {
      ParseFieldsPastColumns(line, 5, e, 5);
    } else {
      assert line[..5][j] == line[j];
      match SetField(e, j, line[j])
      case Failure(err) =>
      case Success(e') =>
        ParseFieldsPrefix(line, j + 1, e');
    }
  }

  /** Extra columns beyond the fifth are ignored entirely. */
  lemma ExtraColumnsIgnored(line: seq<string>)
    requires |line| >= 5
    ensures ParseRow(line) == ParseRow(line[..5])
  {
    ParseFieldsPrefix(line, 0, ZeroEntry);
  }

  lemma {:induction false} ParseRowsFromProperties(data: seq<seq<string>>, i: nat)
    requires i <= |data|
    ensures ParseRowsFrom(data, i).Success? <==> forall k :: i <= k < |data| ==> ParseRow(data[k]).Success?
    ensures ParseRowsFrom(data, i).Success? ==>
      var es := ParseRowsFrom(data, i).value;
      |es| == |data| - i && forall k :: 0 <= k < |es| ==> es[k] == ParseRow(data[i + k]).value
    ensures ParseRowsFrom(data, i).Failure? ==>
      exists k :: i <= k < |data| && ParseRow(data[k]) == Failure(ParseRowsFrom(data, i).error)
        && forall l :: i <= l < k ==> ParseRow(data[l]).Success?
    decreases |data| - i
  {
    if i < |data| {
      ParseRowsFromProperties(data, i + 1);
      if ParseRow(data[i]).Success? && ParseRowsFrom(data, i + 1).Success? {
        var es := ParseRowsFrom(data, i).value;
        forall k | 0 <= k < |es| ensures es[k] == ParseRow(data[i + k]).value {
          if k > 0 {
            assert es[k] == ParseRowsFrom(data, i + 1).value[k - 1];
          }
        }
      }
    }
  }

  /** The header row is skipped, each other row gives one entry in order,
      and the first bad row's error is the result otherwise. */
  lemma EntriesProperties(data: seq<seq<string>>)
    ensures ParseEntries(data).Success? <==> forall k :: 1 <= k < |data| ==> ParseRow(data[k]).Success?
    ensures ParseEntries(data).Success? ==>
      var es := ParseEntries(data).value;
      |es| == (if |data| == 0 then 0 else |data| - 1)
        && forall k :: 0 <= k < |es| ==> es[k] == ParseRow(data[k + 1]).value
    ensures ParseEntries(data).Failure? ==>
      exists k :: 1 <= k < |data| && ParseRow(data[k]) == Failure(ParseEntries(data).error)
        && forall l :: 1 <= l < k ==> ParseRow(data[l]).Success?
  {
    if |data| > 1 {
      ParseRowsFromProperties(data, 1);
    }
  }
}
