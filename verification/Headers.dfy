/** Header fields: what Response prints and Request reads (web/httpserver.cpp). */
module Headers {
  import opened Text
  import opened Dictionaries

  /** std::isspace in the C locale. */
  predicate IsSpace(c: char) {
    c == ' ' || '\t' <= c <= '\r'
  }

  function Lower(c: char): char {
    if 'A' <= c <= 'Z' then c - 'A' + 'a' else c
  }

  /** ctrim: all white space is removed, inside as well as at the ends. */
  function Trim(s: string): string {
    if s == "" then "" else (if IsSpace(s[0]) then "" else [s[0]]) + Trim(s[1..])
  }

  function ToLower(s: string): (r: string)
    ensures |r| == |s| && forall i :: 0 <= i < |s| ==> r[i] == Lower(s[i])
  {
    seq(|s|, i requires 0 <= i < |s| => Lower(s[i]))
  }

  function Key(s: string): string {
    ToLower(Trim(s))
  }

  predicate Spaceless(s: string) {
    forall i :: 0 <= i < |s| ==> !IsSpace(s[i])
  }

  /** A key as the store holds it: free of space, colons and capitals. */
  predicate Normal(k: string) {
    Spaceless(k) && ':' !in k && forall i :: 0 <= i < |k| ==> Lower(k[i]) == k[i]
  }

  lemma {:induction false} TrimmedIsSpaceless(s: string)
    ensures Spaceless(Trim(s)) && (':' !in s ==> ':' !in Trim(s))
  {
    if s != "" {
      TrimmedIsSpaceless(s[1..]);
    }
  }

  lemma {:induction false} TrimSpaceless(s: string)
    requires Spaceless(s)
    ensures Trim(s) == s
  {
    if s != "" {
      TrimSpaceless(s[1..]);
    }
  }

  lemma KeyIsNormal(key: string)
    requires ':' !in key
    ensures Normal(Key(key))
  {
    TrimmedIsSpaceless(key);
  }

  lemma NormalIsFixed(k: string)
    requires Normal(k)
    ensures Key(k) == k
  {
    TrimSpaceless(k);
  }

  // ---- setting headers -----------------------------------------------------

  /** The value is stored under the normalised key, but an empty one erases the key as given. */
  function SetHeader(d: Storage, key: string, value: string): Storage {
    if Trim(value) == "" then Erase(d, key) else Put(d, Key(key), Trim(value))
  }

  function Header(d: Storage, key: string): string {
    Get(d, Key(key))
  }

  predicate Entry(e: (string, string)) {
    Normal(e.0) && Spaceless(e.1) && e.1 != ""
  }

  /** What a sequence of setHeader calls can leave. */
  predicate Printable(d: Storage) {
    UniqueKeys(d) && forall i :: 0 <= i < |d| ==> Entry(d[i])
  }

  lemma SetHeaderPrintable(d: Storage, key: string, value: string)
    requires Printable(d) && ':' !in key
    ensures Printable(SetHeader(d, key, value))
  {
    hide Normal, Spaceless, Trim, Key;
    if Trim(value) == "" {
      EraseUnique(d, key);
    } else {
      KeyIsNormal(key);
      TrimmedIsSpaceless(value);
      PutUnique(d, Key(key), Trim(value));
      assert Entry((Key(key), Trim(value)));
    }
  }

  /**
   * Setting a header to an empty value removes it if and only if it was not
   * there or its name was given in normal form already.
   */
  lemma RemovedIff(d: Storage, key: string)
    requires Printable(d) && ':' !in key
    ensures Header(SetHeader(d, key, ""), key) == "" <==> !HasKey(d, Key(key)) || key == Key(key)
  {
    EraseGet(d, key, Key(key));
    if HasKey(d, Key(key)) {
      assert d[Find(d, Key(key))].1 != "";
    }
  }

  /** For one: a capital letter in the name keeps the header. */
  lemma CapitalKeeps()
    ensures Header(SetHeader([("age", "1")], "Age", ""), "Age") == "1"
  {
    var d := [("age", "1")];
    assert Spaceless("Age") && "age"[0] == 'a';
    TrimSpaceless("Age");
    assert Key("Age") == "age";
    assert d[0].0 == "age" && d[0].0 != "Age";
    FindIs(d, "age", 0);
  }

  function SetAll(d: Storage, calls: seq<(string, string)>): Storage
    decreases |calls|
  {
    if calls == [] then d else SetAll(SetHeader(d, calls[0].0, calls[0].1), calls[1..])
  }

  lemma {:induction false} SetAllPrintable(d: Storage, calls: seq<(string, string)>)
    requires Printable(d) && forall i :: 0 <= i < |calls| ==> ':' !in calls[i].0
    ensures Printable(SetAll(d, calls))
    decreases |calls|
  {
    if calls != [] {
      SetHeaderPrintable(d, calls[0].0, calls[0].1);
      SetAllPrintable(SetHeader(d, calls[0].0, calls[0].1), calls[1..]);
    }
  }

  // ---- printing ------------------------------------------------------------

  function StatusReason(status: nat): string {
    match status
    case 200 => "OK"
    case 201 => "Created"
    case 400 => "Bad Request"
    case 404 => "Not Found"
    case 405 => "Method Not Allowed"
    case 503 => "Service Unavailable"
    case _ => "Unknown Reason"
  }

  /** The first line, without its line feed. */
  function StatusLine(status: nat): string {
    "HTTP/1.1 " + Dec(status) + " " + StatusReason(status) + "\r"
  }

  function HeaderLine(e: (string, string)): string {
    e.0 + ": " + e.1 + "\r"
  }

  function HeaderLines(d: Storage): string {
    if d == [] then ""
    else (if d[0].1 == "" then "" else HeaderLine(d[0]) + "\n") + HeaderLines(d[1..])
  }

  /** What sendHeaders writes before the body. */
  function Block(status: nat, d: Storage): string {
    StatusLine(status) + "\n" + (HeaderLines(d) + ("\r" + "\n"))
  }

  // ---- reading -------------------------------------------------------------

  /** std::getline on a stream that is not at its end: the line and what follows it. */
  function GetLine(s: string): (r: (string, string))
    ensures s != "" ==> |r.1| < |s|
  {
    match LineEnd(s, 0)
    case Some(q) => (s[..q - 1], s[q..])
    case None => (s, "")
  }

  datatype Parsed = Parsed(valid: bool, headers: Storage, rest: string)

  function IndexOf(s: string, c: char): (i: nat)
    ensures i <= |s| && (i < |s| ==> s[i] == c) && forall j :: 0 <= j < i ==> s[j] != c
  {
    if s == "" || s[0] == c then 0 else 1 + IndexOf(s[1..], c)
  }

  function ReadHeaders(s: string, d: Storage): Parsed
    decreases |s|
  {
    if s == "" then Parsed(true, d, "")
    else
      var (line, rest) := GetLine(s);
      if line == "\r" then Parsed(true, d, rest)
      else if line == "" || line[|line| - 1] != '\r' || IndexOf(line, ':') == |line| then Parsed(false, d, rest)
      else
        var p := IndexOf(line, ':');
        ReadHeaders(rest, Put(d, Key(line[..p]), Trim(line[p + 1..])))
  }

  /** The line holds at least n words separated by white space. */
  predicate HasWords(s: string, n: nat)
    decreases |s|, n
  {
    n == 0 || (s != "" && (if IsSpace(s[0]) then HasWords(s[1..], n) else HasWords(SkipWord(s), n - 1)))
  }

  function SkipWord(s: string): (r: string)
    ensures |r| <= |s| && (s != "" && !IsSpace(s[0]) ==> |r| < |s|)
  {
    if s == "" || IsSpace(s[0]) then s else SkipWord(s[1..])
  }

  /** The Request constructor: a line with three words, then header lines up to an empty one. */
  function ReadRequest(s: string): Parsed {
    if s == "" then Parsed(true, [], "")
    else
      var (line, rest) := GetLine(s);
      if !HasWords(line, 3) then Parsed(false, [], rest) else ReadHeaders(rest, [])
  }

  // ---- round trip ----------------------------------------------------------

  lemma GetLineAt(line: string, rest: string)
    requires '\n' !in line
    ensures GetLine(line + "\n" + rest) == (line, rest)
  {
    var s := line + "\n" + rest;
    assert s[..|line| + 1] == line + "\n";
    LineEndAt(s, 0, line);
    assert s[..|line|] == line && s[|line| + 1..] == rest;
  }

  lemma NoLineFeed(s: string)
    requires Spaceless(s)
    ensures '\n' !in s
  {
    assert forall i :: 0 <= i < |s| ==> s[i] != '\n';
  }

  lemma ValuePart(v: string)
    requires Spaceless(v)
    ensures Trim(" " + v + "\r") == v
  {
    TrimAppend(" " + v, "\r");
    TrimAppend(" ", v);
    TrimSpaceless(v);
    assert Trim(" ") == "" && Trim("\r") == "";
  }

  lemma {:induction false} TrimAppend(a: string, b: string)
    ensures Trim(a + b) == Trim(a) + Trim(b)
  {
    if a == "" {
      assert a + b == b;
    } else {
      TrimAppend(a[1..], b);
      assert (a + b)[1..] == a[1..] + b && (a + b)[0] == a[0];
      Associative(if IsSpace(a[0]) then "" else [a[0]], Trim(a[1..]), Trim(b));
    }
  }

  lemma LineReads(e: (string, string))
    requires Normal(e.0) && Spaceless(e.1)
    ensures
      var line := HeaderLine(e);
      && '\n' !in line && line != "\r" && line != "" && line[|line| - 1] == '\r'
      && IndexOf(line, ':') == |e.0| && |e.0| < |line|
      && Key(line[..|e.0|]) == e.0 && Trim(line[|e.0| + 1..]) == e.1
  {
    var line := HeaderLine(e);
    NoLineFeed(e.0);
    NoLineFeed(e.1);
    assert line == e.0 + (":" + (" " + e.1 + "\r"));
    IndexOfFirst(e.0, " " + e.1 + "\r");
    assert line[..|e.0|] == e.0;
    assert line[|e.0| + 1..] == " " + e.1 + "\r";
    NormalIsFixed(e.0);
    ValuePart(e.1);
  }

  lemma {:induction false} IndexOfFirst(a: string, b: string)
    requires ':' !in a
    ensures IndexOf(a + (":" + b), ':') == |a|
  {
    var s := a + (":" + b);
    assert s[|a|] == ':';
    var i := IndexOf(s, ':');
    assert i <= |a|;
    assert forall j :: 0 <= j < |a| ==> s[j] == a[j] && a[j] in a;
  }

  lemma {:induction false} HeaderLinesRead(front: Storage, d: Storage, body: string)
    requires Printable(front + d)
    ensures ReadHeaders(HeaderLines(d) + ("\r" + "\n") + body, front) == Parsed(true, front + d, body)
    decreases |d|
  {
    hide GetLine, IndexOf, Key, Trim, HeaderLine, Normal, Spaceless, ReadHeaders, Put;
    if d == [] {
      var s := HeaderLines(d) + ("\r" + "\n") + body;
      assert s == "\r" + "\n" + body;
      GetLineAt("\r", body);
      HeaderStep(s, front);
      assert front + d == front;
    } else {
      var e, rest := d[0], HeaderLines(d[1..]) + ("\r" + "\n") + body;
      assert (front + d)[|front|] == e;
      LineReads(e);
      GetLineAt(HeaderLine(e), rest);
      Associative(HeaderLine(e) + "\n", HeaderLines(d[1..]), "\r" + "\n");
      Associative(HeaderLine(e) + "\n", HeaderLines(d[1..]) + ("\r" + "\n"), body);
      assert HeaderLines(d) + ("\r" + "\n") + body == HeaderLine(e) + "\n" + rest;
      HeaderStep(HeaderLine(e) + "\n" + rest, front);
      NewKey(front, d);
      assert front + [e] + d[1..] == front + d;
      HeaderLinesRead(front + [e], d[1..], body);
    }
  }

  lemma NewKey(front: Storage, d: Storage)
    requires UniqueKeys(front + d) && d != []
    ensures Put(front, d[0].0, d[0].1) == front + [d[0]]
  {
    var s := front + d;
    assert forall i :: 0 <= i < |front| ==> s[i] == front[i] && s[i].0 != s[|front|].0;
  }

  lemma ReasonReads(status: nat)
    ensures '\n' !in StatusReason(status) && HasWords(StatusReason(status) + "\r", 1)
  {
    var r := StatusReason(status);
    assert r != "" && !IsSpace(r[0]);
    assert (r + "\r")[0] == r[0];
  }

  lemma StatusLineReads(status: nat)
    ensures '\n' !in StatusLine(status) && HasWords(StatusLine(status), 3)
  {
    hide StatusReason, HasWords, Numeral, Spaceless;
    var num, reason := Dec(status), StatusReason(status) + "\r";
    DigitsAreWords(num);
    ReasonReads(status);
    SpaceThen(reason, 1);
    WordThen(num, " " + reason, 1);
    SpaceThen(num + (" " + reason), 2);
    assert Spaceless("HTTP/1.1") by { ProtocolIsWord(); }
    WordThen("HTTP/1.1", " " + (num + (" " + reason)), 2);
    assert StatusLine(status) == "HTTP/1.1" + (" " + (num + (" " + reason)));
  }

  lemma ProtocolIsWord()
    ensures Spaceless("HTTP/1.1")
  {
  }

  lemma DigitsAreWords(num: string)
    requires AllDigits(num, 10)
    ensures Spaceless(num) && '\n' !in num
  {
    assert forall i :: 0 <= i < |num| ==> IsDigit(num[i], 10);
    NoLineFeed(num);
  }

  lemma SpaceThen(s: string, n: nat)
    ensures HasWords(s, n) ==> HasWords(" " + s, n)
  {
    assert (" " + s)[1..] == s;
  }

  lemma {:induction false} SkipWordAt(w: string, s: string)
    requires Spaceless(w) && (s == "" || IsSpace(s[0]))
    ensures SkipWord(w + s) == s
  {
    if w == "" {
      assert w + s == s;
    } else {
      SkipWordAt(w[1..], s);
      assert (w + s)[1..] == w[1..] + s;
    }
  }

  lemma WordThen(w: string, s: string, n: nat)
    requires Spaceless(w) && w != "" && (s == "" || IsSpace(s[0]))
    ensures HasWords(s, n) ==> HasWords(w + s, n + 1)
  {
    SkipWordAt(w, s);
  }

  lemma BlockReads(status: nat, d: Storage, body: string)
    requires Printable(d)
    ensures ReadRequest(Block(status, d) + body) == Parsed(true, d, body)
  {
    hide StatusLine, HeaderLines, HasWords, GetLine, ReadHeaders, Entry;
    var rest := HeaderLines(d) + ("\r" + "\n") + body;
    StatusLineReads(status);
    GetLineAt(StatusLine(status), rest);
    assert Block(status, d) + body == StatusLine(status) + "\n" + rest;
    assert [] + d == d;
    HeaderLinesRead([], d, body);
  }

  /**
   * Whatever headers were set, the request reader accepts the block that the
   * response prints and recovers exactly its entries, in order, up to the body.
   */
  lemma HeadersRoundTrip(status: nat, calls: seq<(string, string)>, body: string)
    requires forall i :: 0 <= i < |calls| ==> ':' !in calls[i].0
    ensures ReadRequest(Block(status, SetAll([], calls)) + body) == Parsed(true, SetAll([], calls), body)
  {
    SetAllPrintable([], calls);
    BlockReads(status, SetAll([], calls), body);
  }

  /** A header line is stored under its name in small letters and without spaces, however it was written. */
  lemma HeaderRead(key: string, value: string, rest: string, d: Storage)
    requires ':' !in key && '\n' !in key && '\n' !in value
    ensures ReadHeaders(key + ":" + value + "\r\n" + rest, d) == ReadHeaders(rest, Put(d, Key(key), Trim(value)))
  {
    hide GetLine, IndexOf, Key, Put, Trim, ReadHeaders;
    var end := value + "\r";
    var line := key + (":" + end);
    assert key + ":" + value + "\r\n" + rest == line + "\n" + rest;
    GetLineAt(line, rest);
    IndexOfFirst(key, end);
    HeaderStep(line + "\n" + rest, d);
    assert line[|key|] == ':' && line[|line| - 1] == '\r';
    assert line[..|key|] == key && line[|key| + 1..] == end;
    assert Trim(end) == Trim(value) by { TrimEnd(value); }
  }

  lemma TrimEnd(value: string)
    ensures Trim(value + "\r") == Trim(value)
  {
    TrimAppend(value, "\r");
    assert Trim("\r") == "";
  }

  /** A line that does not end with a carriage return, or has no colon, makes the request invalid. */
  lemma BadLine(line: string, rest: string, d: Storage)
    requires '\n' !in line && line != "\r"
    requires line == "" || line[|line| - 1] != '\r' || ':' !in line
    ensures !ReadHeaders(line + "\n" + rest, d).valid
  {
    hide GetLine, Key, Put, Trim;
    GetLineAt(line, rest);
    HeaderStep(line + "\n" + rest, d);
    var i := IndexOf(line, ':');
    assert i < |line| ==> line[i] in line;
  }

  /** So does a first line of one word. */
  lemma OneWord(line: string, rest: string)
    requires '\n' !in line && Spaceless(line)
    ensures !ReadRequest(line + "\n" + rest).valid
  {
    GetLineAt(line, rest);
    SkipWordAt(line, "");
    assert line + "" == line;
    assert !HasWords("", 2) && !HasWords("", 3);
    assert !HasWords(line, 3);
  }

  // ---- what a client reads -------------------------------------------------

  const PROTOCOL: string := "HTTP/1.1 "

  /** The number on the status line. */
  function ReadStatus(s: string): Option<nat> {
    if !At(s, 0, PROTOCOL) then None else
    var k := DigitRun(s, |PROTOCOL|, 10);
    if k == 0 then None else Some(Eval(s[|PROTOCOL|..|PROTOCOL| + k], 10))
  }

  datatype Reply = Reply(status: nat, headers: Storage, rest: string)

  /** A response: its status, its header fields, and what follows them. */
  function ReadResponse(s: string): Option<Reply> {
    var status :- ReadStatus(s);
    var parsed := ReadRequest(s);
    if parsed.valid then Some(Reply(status, parsed.headers, parsed.rest)) else None
  }

  lemma StatusReads(status: nat, rest: string)
    ensures ReadStatus(StatusLine(status) + rest) == Some(status)
  {
    hide Numeral, StatusReason;
    var num, after := Dec(status), " " + StatusReason(status) + "\r" + rest;
    var s := StatusLine(status) + rest;
    assert s == PROTOCOL + num + after;
    AtMiddle("", PROTOCOL, num + after);
    assert "" + PROTOCOL + (num + after) == s;
    AtMiddle(PROTOCOL, num, after);
    assert s[|PROTOCOL| + |num|] == ' ';
    DigitRunAt(s, |PROTOCOL|, num, 10);
    assert s[|PROTOCOL|..|PROTOCOL| + |num|] == num;
    EvalNumeral(status, 10);
  }

  /** A client recovers status, entries and the start of the body from what a response prints. */
  lemma ResponseRoundTrip(status: nat, d: Storage, body: string)
    requires Printable(d)
    ensures ReadResponse(Block(status, d) + body) == Some(Reply(status, d, body))
  {
    hide StatusLine, HeaderLines, ReadStatus, ReadRequest, Printable;
    var rest := "\n" + (HeaderLines(d) + ("\r" + "\n")) + body;
    assert Block(status, d) + body == StatusLine(status) + rest;
    StatusReads(status, rest);
    BlockReads(status, d, body);
  }

  // ---- what is sent --------------------------------------------------------

  const CONNECTION: string := "connection"
  const CONTENT_LENGTH: string := "content-length"
  const CONTENT_TYPE: string := "content-type"
  const TRANSFER_ENCODING: string := "transfer-encoding"

  function Coding(d: Storage): string {
    ToLower(Header(d, TRANSFER_ENCODING))
  }

  /** Any other transfer coding makes sendHeaders throw. */
  predicate KnownCoding(d: Storage) {
    Coding(d) == "" || Coding(d) == "identity" || Coding(d) == "chunked"
  }

  /** The entries as send and sendHeaders leave them. */
  function Closing(d: Storage): Storage {
    SetHeader(SetHeader(d, CONTENT_LENGTH, ""), CONNECTION, "close")
  }

  function Outgoing(d: Storage): Storage {
    if Coding(d) == "identity" then SetHeader(Closing(d), TRANSFER_ENCODING, "")
    else if Coding(d) == "chunked" then SetHeader(Closing(d), CONTENT_LENGTH, "")
    else Closing(d)
  }

  /** Small letters and hyphens only. */
  predicate IsName(s: string) {
    forall i :: 0 <= i < |s| ==> 'a' <= s[i] <= 'z' || s[i] == '-'
  }

  lemma NameIsNormal(s: string)
    requires IsName(s)
    ensures Normal(s)
  {
  }

  lemma FieldNames()
    ensures Normal(CONNECTION) && Normal(CONTENT_LENGTH) && Normal(CONTENT_TYPE) && Normal(TRANSFER_ENCODING)
    ensures |CONNECTION| == 10 && |CONTENT_LENGTH| == 14 && |CONTENT_TYPE| == 12 && |TRANSFER_ENCODING| == 17
  {
    hide Normal;
    NameIsNormal(CONNECTION);
    NameIsNormal(CONTENT_LENGTH);
    NameIsNormal(CONTENT_TYPE);
    NameIsNormal(TRANSFER_ENCODING);
  }

  /** Setting one header leaves the others, for names in normal form. */
  lemma SetOther(d: Storage, name: string, value: string, other: string)
    requires Printable(d) && Normal(name) && Normal(other)
    ensures Header(SetHeader(d, name, value), other) == if other == name then Trim(value) else Header(d, other)
  {
    hide Normal, Trim, Key, Get, Put, Erase, Entry;
    NormalIsFixed(name);
    NormalIsFixed(other);
    if Trim(value) == "" {
      EraseGet(d, name, other);
    } else {
      PutGet(d, name, Trim(value), other);
    }
  }

  lemma SetPrintable(d: Storage, name: string, value: string)
    requires Printable(d) && Normal(name)
    ensures Printable(SetHeader(d, name, value))
  {
    SetHeaderPrintable(d, name, value);
  }

  /** Closing keeps every other field, and what goes out is printable. */
  lemma OutgoingPrintable(d: Storage)
    requires Printable(d)
    ensures Printable(Closing(d)) && Coding(Closing(d)) == Coding(d) && Printable(Outgoing(d))
    ensures Coding(d) != "identity" ==> Coding(Outgoing(d)) == Coding(d)
  {
    hide Printable, Normal, SetHeader, Header;
    FieldNames();
    ClosingFields(d, TRANSFER_ENCODING);
    SetPrintable(Closing(d), TRANSFER_ENCODING, "");
    SetPrintable(Closing(d), CONTENT_LENGTH, "");
    SetOther(Closing(d), CONTENT_LENGTH, "", TRANSFER_ENCODING);
  }

  lemma ClosingFields(d: Storage, name: string)
    requires Printable(d) && Normal(name) && name != CONTENT_LENGTH
    ensures Printable(Closing(d))
    ensures Header(Closing(d), name) == if name == CONNECTION then "close" else Header(d, name)
  {
    hide Printable, Normal, SetHeader, Header, Trim;
    FieldNames();
    var a := SetHeader(d, CONTENT_LENGTH, "");
    SetPrintable(d, CONTENT_LENGTH, "");
    SetOther(d, CONTENT_LENGTH, "", name);
    SetPrintable(a, CONNECTION, "close");
    SetOther(a, CONNECTION, "close", name);
    NameIsNormal("close");
    NormalWord("close");
  }

  /** What a client finds in the fields of a response that is not coded as identity. */
  lemma OutgoingFields(d: Storage)
    requires Printable(d) && Coding(d) != "identity"
    ensures
      var r := Outgoing(d);
      && Get(r, "content-type") == Header(d, CONTENT_TYPE) && Get(r, "connection") == "close"
      && ToLower(Get(r, "transfer-encoding")) == Coding(d) && Get(r, "content-length") == ""
  {
    hide Printable, Normal, SetHeader, Get, Trim, ToLower;
    FieldNames();
    var a, r := Closing(d), Outgoing(d);
    ClosingFields(d, CONTENT_TYPE);
    ClosingFields(d, CONNECTION);
    ClosingFields(d, TRANSFER_ENCODING);
    SetOther(a, CONTENT_LENGTH, "", CONTENT_TYPE);
    SetOther(a, CONTENT_LENGTH, "", CONNECTION);
    SetOther(a, CONTENT_LENGTH, "", TRANSFER_ENCODING);
    SetOther(a, CONTENT_LENGTH, "", CONTENT_LENGTH);
    NoLength(d);
    assert Trim("") == "" by { NoText(); }
    NormalIsFixed(CONTENT_TYPE);
    NormalIsFixed(CONNECTION);
    NormalIsFixed(TRANSFER_ENCODING);
    NormalIsFixed(CONTENT_LENGTH);
  }

  lemma NoText()
    ensures Trim("") == ""
  {
  }

  /** The first step of closing removes the length. */
  lemma NoLength(d: Storage)
    requires Printable(d)
    ensures Header(Closing(d), CONTENT_LENGTH) == ""
  {
    hide Printable, Normal, SetHeader, Header;
    FieldNames();
    SetPrintable(d, CONTENT_LENGTH, "");
    SetOther(d, CONTENT_LENGTH, "", CONTENT_LENGTH);
    SetOther(SetHeader(d, CONTENT_LENGTH, ""), CONNECTION, "close", CONTENT_LENGTH);
  }

  lemma OutgoingCoding(d: Storage)
    requires Printable(d) && Coding(d) != "identity"
    ensures Printable(Outgoing(d)) && Coding(Outgoing(d)) == Coding(d)
  {
    hide Coding, Printable, SetHeader;
    OutgoingPrintable(d);
  }

  /** The headers of a document: its type, and the chunked coding. */
  function DocumentHeaders(d: Storage, mimeType: string): Storage {
    SetHeader(SetHeader(d, CONTENT_TYPE, mimeType), TRANSFER_ENCODING, "chunked")
  }

  lemma DocumentIsChunked(d: Storage, mimeType: string)
    requires Printable(d)
    ensures
      var r := DocumentHeaders(d, mimeType);
      && Printable(r) && Coding(r) == Header(r, TRANSFER_ENCODING) == "chunked"
      && Header(r, CONTENT_TYPE) == Trim(mimeType)
  {
    hide Printable, Normal, SetHeader, Header, Trim;
    FieldNames();
    var a := SetHeader(d, CONTENT_TYPE, mimeType);
    SetPrintable(d, CONTENT_TYPE, mimeType);
    SetOther(d, CONTENT_TYPE, mimeType, CONTENT_TYPE);
    SetPrintable(a, TRANSFER_ENCODING, "chunked");
    SetOther(a, TRANSFER_ENCODING, "chunked", TRANSFER_ENCODING);
    SetOther(a, TRANSFER_ENCODING, "chunked", CONTENT_TYPE);
    ChunkedIsWord();
  }

  lemma NormalWord(s: string)
    requires Normal(s)
    ensures Trim(s) == s && ToLower(s) == s
  {
    TrimSpaceless(s);
  }

  lemma ChunkedIsWord()
    ensures Trim("chunked") == "chunked" && ToLower("chunked") == "chunked"
  {
    hide Normal, Trim, ToLower;
    NameIsNormal("chunked");
    NormalWord("chunked");
  }

  // ---- the code ------------------------------------------------------------

  method RemoveSpace(s: string) returns (r: string)
    ensures r == Trim(s)
  {
    r := "";
    for i := 0 to |s|
      invariant r == Trim(s[..i])
    {
      assert s[..i + 1] == s[..i] + [s[i]];
      TrimAppend(s[..i], [s[i]]);
      assert [s[i]][1..] == "";
      if !IsSpace(s[i]) {
        r := r + [s[i]];
      }
    }
    assert s[..|s|] == s;
  }

  class Response {
    const headers: Dictionary
    var status: nat

    constructor ()
      ensures headers.Valid() && headers.data == [] && status == 200 && fresh(headers)
    {
      headers := new Dictionary();
      status := 200;
    }

    method Set(key: string, value: string)
      requires headers.Valid()
      modifies headers
      ensures headers.Valid() && headers.data == SetHeader(old(headers.data), key, value)
    {
      var trimmedKey := RemoveSpace(key);
      var trimmedValue := RemoveSpace(value);
      if trimmedValue == "" {
        headers.EraseKey(key);
      } else {
        headers.Set(ToLower(trimmedKey), trimmedValue);
      }
    }

    method Print() returns (text: string)
      ensures text == Block(status, headers.data)
    {
      hide StatusLine, HeaderLine;
      text := StatusLine(status) + "\n";
      ghost var first := text;
      var d := headers.data;
      for i := 0 to |d|
        invariant text + HeaderLines(d[i..]) == first + HeaderLines(d)
      {
        assert d[i..][1..] == d[i + 1..];
        if d[i].1 != "" {
          text := text + (HeaderLine(d[i]) + "\n");
        }
      }
      assert HeaderLines(d[|d|..]) == "";
      assert text == first + HeaderLines(d);
      text := text + ("\r" + "\n");
    }
  }

  /** The Request constructor's loop over the input. */
  method ParseRequest(s: string) returns (r: Parsed)
    ensures r == ReadRequest(s)
  {
    hide GetLine, HasWords, Key, Trim, Put, ReadHeaders;
    NoMoreHeaders([]);
    if s == "" {
      return Parsed(true, [], "");
    }
    var (line, rest) := GetLine(s);
    var valid, headers, more := HasWords(line, 3), [], true;
    if !valid {
      return Parsed(false, [], rest);
    }
    while valid && rest != "" && more
      invariant valid && more ==> ReadHeaders(rest, headers) == ReadRequest(s)
      invariant !(valid && more) ==> Parsed(valid, headers, rest) == ReadRequest(s)
      decreases |rest|
    {
      HeaderStep(rest, headers);
      var next := GetLine(rest);
      line, rest := next.0, next.1;
      if line == "\r" {
        more := false;
      } else if line == "" || line[|line| - 1] != '\r' {
        valid := false;
      } else {
        var pos := IndexOf(line, ':');
        if pos >= |line| {
          valid := false;
        } else {
          headers := Put(headers, Key(line[..pos]), Trim(line[pos + 1..]));
        }
      }
    }
    NoMoreHeaders(headers);
    r := Parsed(valid, headers, rest);
  }

  lemma NoMoreHeaders(d: Storage)
    ensures ReadHeaders("", d) == Parsed(true, d, "")
  {
  }

  /** One line of the header block. */
  lemma HeaderStep(s: string, d: Storage)
    requires s != ""
    ensures
      var (line, rest) := GetLine(s);
      ReadHeaders(s, d) ==
        if line == "\r" then Parsed(true, d, rest)
        else if line == "" || line[|line| - 1] != '\r' || IndexOf(line, ':') == |line| then Parsed(false, d, rest)
        else ReadHeaders(rest, Put(d, Key(line[..IndexOf(line, ':')]), Trim(line[IndexOf(line, ':') + 1..])))
  {
    hide GetLine, IndexOf, Key, Trim, Put;
  }
}
