/** The web page's scan ticket (server/scannerpage.cpp) and its reader (server/scanjob.cpp). */
module Tickets {
  import opened Text
  import opened Dictionaries
  import Urls

  predicate IsLetter(c: char) {
    'a' <= c <= 'z' || 'A' <= c <= 'Z'
  }

  predicate Alphabetic(s: string) {
    forall i :: 0 <= i < |s| ==> IsLetter(s[i])
  }

  // ---- reading -------------------------------------------------------------

  function LetterRun(s: string, p: nat): (k: nat)
    ensures p <= |s| ==> p + k <= |s|
    decreases |s| - p
  {
    if p < |s| && IsLetter(s[p]) then 1 + LetterRun(s, p + 1) else 0
  }

  /**
   * A match of <([a-zA-Z]+:name)>([^<]*)</\1> at position i, for an alphabetic
   * name: its second group. No part of the pattern leaves a choice.
   */
  function MatchAt(xml: string, i: nat, name: string): Option<string> {
    var k := LetterRun(xml, i + 1);
    var rest := ":" + name + ">";
    if !At(xml, i, "<") || k == 0 || !At(xml, i + 1 + k, rest) then None else
    var p := i + 1 + k + |rest|;
    var q := Urls.Find(xml, "<", p);
    if At(xml, q, "</" + xml[i + 1..i + 1 + k] + rest) then Some(xml[p..q]) else None
  }

  function Search(xml: string, i: nat, name: string): string
    decreases |xml| - i
  {
    if i >= |xml| then ""
    else match MatchAt(xml, i, name)
      case Some(value) => value
      case None => Search(xml, i + 1, name)
  }

  /** ScanSettingsXml::getString: the first match, or an empty string. */
  function GetString(xml: string, name: string): string {
    Search(xml, 0, name)
  }

  // ---- writing -------------------------------------------------------------

  const UNITS_KEY: string := "ContentRegionUnits"
  const UNITS: string := "escl:ThreeHundredthsOfInches"

  function EntryText(e: (string, string)): string {
    "<x:" + (e.0 + (">" + (e.1 + ("</x:" + (e.0 + (">" + "\n"))))))
  }

  function EntriesText(d: Storage): string {
    if d == [] then "" else EntryText(d[0]) + EntriesText(d[1..])
  }

  /** The dictionary as edited before it is written out. */
  function Edited(dict: Storage): Storage {
    var resolution := Get(dict, "Resolution");
    var d := Erase(Erase(dict, "preview"), "Resolution");
    var e := Erase(Put(Put(d, "XResolution", resolution), "YResolution", resolution), "PaperSize");
    Put(Put(Put(e, "XOffset", "0"), "YOffset", "0"), "ConcatIfPossible", "1")
  }

  function Ticket(dict: Storage): string {
    EntryText((UNITS_KEY, UNITS)) + EntriesText(Edited(dict))
  }

  /** buildScanJobTicket, on a copy of the form's dictionary. */
  method BuildScanJobTicket(dict: Dictionary) returns (ticket: string)
    requires dict.Valid()
    ensures ticket == Ticket(dict.data)
  {
    hide EntryText, Put, Erase, Get, UniqueKeys;
    var d := new Dictionary();
    d.data := dict.data;
    var resolution := Get(dict.data, "Resolution");
    d.EraseKey("preview");
    d.EraseKey("Resolution");
    d.Set("XResolution", resolution);
    d.Set("YResolution", resolution);
    d.EraseKey("PaperSize");
    d.Set("XOffset", "0");
    d.Set("YOffset", "0");
    d.Set("ConcatIfPossible", "1");
    ticket := EntryText((UNITS_KEY, UNITS));
    ghost var first := ticket;
    for i := 0 to |d.data|
      invariant d.data == Edited(dict.data)
      invariant ticket + EntriesText(d.data[i..]) == first + EntriesText(d.data)
    {
      assert d.data[i..][1..] == d.data[i + 1..];
      ticket := ticket + EntryText(d.data[i]);
    }
    assert EntriesText(d.data[|d.data|..]) == "";
  }

  // ---- reading what was written --------------------------------------------

  /** Entries that cannot be mistaken for markup. */
  predicate Plain(e: (string, string)) {
    Alphabetic(e.0) && '<' !in e.1
  }

  lemma {:induction false} Skip(xml: string, i: nat, j: nat, name: string)
    requires i <= j <= |xml| && forall p :: i <= p < j ==> MatchAt(xml, p, name).None?
    ensures Search(xml, i, name) == Search(xml, j, name)
    decreases j - i
  {
    if i < j {
      Skip(xml, i + 1, j, name);
    }
  }

  lemma PartsAt(xml: string, p: nat, a: string, b: string, c: string, d: string, e: string, f: string)
    requires At(xml, p, a + (b + (c + (d + (e + f)))))
    ensures At(xml, p, a) && At(xml, p + |a|, b) && At(xml, p + |a| + |b|, c) && At(xml, p + |a| + |b| + |c|, d)
    ensures At(xml, p + |a| + |b| + |c| + |d|, e + f)
  {
    AtSplit(xml, p, a, b + (c + (d + (e + f))));
    AtSplit(xml, p + |a|, b, c + (d + (e + f)));
    AtSplit(xml, p + |a| + |b|, c, d + (e + f));
    AtSplit(xml, p + |a| + |b| + |c|, d, e + f);
  }

  /** An entry in place: opening tag, value, closing tag. */
  lemma EntryParts(xml: string, p: nat, e: (string, string))
    requires At(xml, p, EntryText(e))
    ensures
      var n, m := |e.0|, |e.1|;
      && At(xml, p, "<x:") && At(xml, p + 3, e.0) && At(xml, p + 3 + n, ">") && At(xml, p + 4 + n, e.1)
      && At(xml, p + 4 + n + m, "</x:" + (e.0 + (">" + "\n")))
      && |EntryText(e)| == 10 + 2 * n + m
  {
    hide At;
    PartsAt(xml, p, "<x:", e.0, ">", e.1, "</x:", e.0 + (">" + "\n"));
  }

  /** The closing tag has one '<', in front of its slash. */
  lemma ClosingChars(name: string, j: nat)
    requires Alphabetic(name) && j < 6 + |name|
    ensures
      var t := "</x:" + (name + (">" + "\n"));
      |t| == 6 + |name| && t[1] == '/' && (t[j] == '<' ==> j == 0)
  {
    var t := "</x:" + (name + (">" + "\n"));
    assert 4 <= j < 4 + |name| ==> t[j] == name[j - 4];
  }

  /** Every character of an entry behind its first, by its place. */
  lemma CharsOf(xml: string, p: nat, e: (string, string), i: nat)
    requires At(xml, p, EntryText(e)) && Plain(e) && p < i < p + |EntryText(e)|
    ensures xml[i] == '<' ==> i + 1 < |xml| && xml[i + 1] == '/'
  {
    hide At, EntryText;
    EntryParts(xml, p, e);
    var n, q := |e.0|, p + 4 + |e.0| + |e.1|;
    if i < p + 3 {
      CharAt(xml, p, "<x:", i - p);
    } else if i < p + 3 + n {
      CharAt(xml, p + 3, e.0, i - p - 3);
    } else if i < p + 4 + n {
      CharAt(xml, p + 3 + n, ">", 0);
    } else if i < q {
      CharAt(xml, p + 4 + n, e.1, i - p - 4 - n);
      assert e.1[i - p - 4 - n] in e.1;
    } else {
      var t := "</x:" + (e.0 + (">" + "\n"));
      ClosingChars(e.0, i - q);
      CharAt(xml, q, t, i - q);
      CharAt(xml, q, t, 1);
    }
  }

  lemma NoLetters(xml: string, i: nat)
    requires i + 1 < |xml| && xml[i + 1] == '/'
    ensures LetterRun(xml, i + 1) == 0
  {
  }

  lemma OneLetter(xml: string, p: nat)
    requires At(xml, p, "<x:")
    ensures LetterRun(xml, p + 1) == 1 && xml[p + 1..p + 2] == "x"
  {
    var s := xml[p..p + 3];
    assert xml[p + 1] == s[1] == 'x' && xml[p + 2] == s[2] == ':';
  }

  lemma {:induction false} LetterRunAt(xml: string, p: nat, a: string)
    requires Alphabetic(a) && At(xml, p, a + ">")
    ensures LetterRun(xml, p) == |a|
    decreases |a|
  {
    var x := a + ">";
    assert xml[p] == xml[p..p + |x|][0] == x[0];
    if a != "" {
      assert xml[p + 1..p + |x|] == xml[p..p + |x|][1..] == a[1..] + ">";
      LetterRunAt(xml, p + 1, a[1..]);
    }
  }

  /** Two alphabetic names that end at the same character are the same. */
  lemma SameName(xml: string, p: nat, a: string, b: string)
    requires Alphabetic(a) && Alphabetic(b)
    requires At(xml, p, a + ">") && At(xml, p, b + ">")
    ensures a == b
  {
    LetterRunAt(xml, p, a);
    LetterRunAt(xml, p, b);
    AtSplit(xml, p, a, ">");
    AtSplit(xml, p, b, ">");
  }

  /** The opening tag of an entry, as the pattern sees it. */
  lemma TagAt(xml: string, p: nat, e: (string, string))
    requires At(xml, p, EntryText(e))
    ensures At(xml, p, "<") && LetterRun(xml, p + 1) == 1 && xml[p + 1..p + 2] == "x"
    ensures At(xml, p + 2, ":") && At(xml, p + 3, e.0 + ">") && At(xml, p + 2, ":" + e.0 + ">")
  {
    EntryParts(xml, p, e);
    OneLetter(xml, p);
    AtSplit(xml, p, "<", "x:");
    AtSplit(xml, p + 1, "x", ":");
    AtSplit(xml, p + 3, e.0, ">");
    AtSplit(xml, p + 2, ":", e.0 + ">");
    assert "<" + "x:" == "<x:" && "x" + ":" == "x:" && ":" + (e.0 + ">") == ":" + e.0 + ">";
  }

  lemma ClosingTagAt(xml: string, p: nat, e: (string, string))
    requires At(xml, p, EntryText(e))
    ensures
      var q := p + 4 + |e.0| + |e.1|;
      At(xml, q, "</" + "x" + (":" + e.0 + ">")) && xml[q] == '<'
  {
    EntryParts(xml, p, e);
    var q, rest := p + 4 + |e.0| + |e.1|, ":" + e.0 + ">";
    assert "</x:" + (e.0 + (">" + "\n")) == "</" + "x" + rest + "\n";
    AtSplit(xml, q, "</" + "x" + rest, "\n");
    AtSplit(xml, q, "<", "/" + "x" + rest);
    assert "<" + ("/" + "x" + rest) == "</" + "x" + rest;
    assert xml[q] == xml[q..q + 1][0];
  }

  lemma EntryMatches(xml: string, p: nat, e: (string, string))
    requires At(xml, p, EntryText(e)) && Plain(e)
    ensures MatchAt(xml, p, e.0) == Some(e.1)
  {
    hide LetterRun, EntryText, Urls.Find;
    EntryParts(xml, p, e);
    TagAt(xml, p, e);
    ClosingTagAt(xml, p, e);
    ValueEnds(xml, p + 4 + |e.0|, e.1);
  }

  lemma ValueEnds(xml: string, p: nat, value: string)
    requires At(xml, p, value) && '<' !in value && p + |value| < |xml| && xml[p + |value|] == '<'
    ensures Urls.Find(xml, "<", p) == p + |value|
  {
    hide Urls.Find;
    var q, i := p + |value|, Urls.Find(xml, "<", p);
    assert At(xml, q, "<") by {
      assert xml[q..q + 1] == "<";
    }
    assert xml[i..i + 1] == [xml[i]];
    assert forall j :: 0 <= j < |value| ==> xml[p..q][j] == xml[p + j] && value[j] in value;
  }

  lemma OtherEntryFails(xml: string, p: nat, e: (string, string), name: string, i: nat)
    requires At(xml, p, EntryText(e)) && Plain(e) && Alphabetic(name) && name != e.0
    requires p <= i < p + |EntryText(e)|
    ensures MatchAt(xml, i, name).None?
  {
    if i == p {
      TagAt(xml, p, e);
      if At(xml, p + 2, ":" + name + ">") {
        assert ":" + name + ">" == ":" + (name + ">");
        AtSplit(xml, p + 2, ":", name + ">");
        SameName(xml, p + 3, name, e.0);
      }
    } else if At(xml, i, "<") {
      assert xml[i] == xml[i..i + 1][0];
      CharsOf(xml, p, e, i);
      NoLetters(xml, i);
    }
  }

  lemma {:induction false} EntriesRead(xml: string, p: nat, d: Storage, name: string)
    requires At(xml, p, EntriesText(d)) && p + |EntriesText(d)| == |xml|
    requires Alphabetic(name) && forall i :: 0 <= i < |d| ==> Plain(d[i])
    ensures Search(xml, p, name) == Get(d, name)
    decreases |d|
  {
    hide MatchAt, EntryText, Plain, Get;
    if d == [] {
      GetEmpty(name);
    } else {
      var e, rest := d[0], EntriesText(d[1..]);
      AtSplit(xml, p, EntryText(e), rest);
      EntryParts(xml, p, e);
      if e.0 == name {
        EntryMatches(xml, p, e);
        GetFirst(d);
      } else {
        forall i | p <= i < p + |EntryText(e)|
          ensures MatchAt(xml, i, name).None?
        {
          OtherEntryFails(xml, p, e, name, i);
        }
        Skip(xml, p, p + |EntryText(e)|, name);
        EntriesRead(xml, p + |EntryText(e)|, d[1..], name);
        GetTail(d, name);
      }
    }
  }

  lemma GetEmpty(key: string)
    ensures Get([], key) == ""
  {
  }

  lemma GetFirst(d: Storage)
    requires d != []
    ensures Get(d, d[0].0) == d[0].1
  {
  }

  lemma GetTail(d: Storage, key: string)
    requires d != [] && d[0].0 != key
    ensures Get(d, key) == Get(d[1..], key)
  {
  }

  /** What the edited dictionary holds under each key. */
  function Kept(dict: Storage, key: string): string {
    match key
    case "XResolution" => Get(dict, "Resolution")
    case "YResolution" => Get(dict, "Resolution")
    case "XOffset" => "0"
    case "YOffset" => "0"
    case "ConcatIfPossible" => "1"
    case "preview" => ""
    case "Resolution" => ""
    case "PaperSize" => ""
    case _ => Get(dict, key)
  }

  lemma EditedHolds(dict: Storage, key: string)
    requires UniqueKeys(dict)
    ensures Get(Edited(dict), key) == Kept(dict, key)
  {
    hide Get, Put, Erase, UniqueKeys;
    var r := Get(dict, "Resolution");
    var a := Erase(dict, "preview");
    EraseUnique(dict, "preview");
    EraseGet(dict, "preview", key);
    var b := Erase(a, "Resolution");
    EraseUnique(a, "Resolution");
    EraseGet(a, "Resolution", key);
    var c := Put(b, "XResolution", r);
    PutUnique(b, "XResolution", r);
    PutGet(b, "XResolution", r, key);
    var d := Put(c, "YResolution", r);
    PutUnique(c, "YResolution", r);
    PutGet(c, "YResolution", r, key);
    var e := Erase(d, "PaperSize");
    EraseGet(d, "PaperSize", key);
    PutGet(e, "XOffset", "0", key);
    PutGet(Put(e, "XOffset", "0"), "YOffset", "0", key);
    PutGet(Put(Put(e, "XOffset", "0"), "YOffset", "0"), "ConcatIfPossible", "1", key);
  }

  predicate AllPlain(d: Storage) {
    forall i :: 0 <= i < |d| ==> Plain(d[i])
  }

  lemma PutPlain(d: Storage, key: string, value: string)
    requires AllPlain(d) && Plain((key, value))
    ensures AllPlain(Put(d, key, value))
  {
  }

  lemma ErasePlain(d: Storage, key: string)
    requires AllPlain(d)
    ensures AllPlain(Erase(d, key))
  {
  }

  lemma EditedPlain(dict: Storage)
    requires AllPlain(dict)
    ensures AllPlain(Edited(dict))
  {
    hide AllPlain, Put, Erase;
    var r := Get(dict, "Resolution");
    assert '<' !in r by { GetPlain(dict, "Resolution"); }
    var a := Erase(dict, "preview");
    ErasePlain(dict, "preview");
    var b := Erase(a, "Resolution");
    ErasePlain(a, "Resolution");
    var c := Put(b, "XResolution", r);
    PutPlain(b, "XResolution", r);
    var d := Put(c, "YResolution", r);
    PutPlain(c, "YResolution", r);
    var e := Erase(d, "PaperSize");
    ErasePlain(d, "PaperSize");
    var f := Put(e, "XOffset", "0");
    PutPlain(e, "XOffset", "0");
    PutPlain(f, "YOffset", "0");
    PutPlain(Put(f, "YOffset", "0"), "ConcatIfPossible", "1");
  }

  lemma GetPlain(d: Storage, key: string)
    requires AllPlain(d)
    ensures '<' !in Get(d, key)
  {
  }

  /**
   * For every form with alphabetic keys and values free of markup, the job
   * reads back from the ticket what the form said: the resolution for both
   * axes, the fixed values, and the form's own value for every other key kept.
   */
  lemma TicketRoundTrip(dict: Storage, name: string)
    requires UniqueKeys(dict) && AllPlain(dict) && Alphabetic(name)
    ensures GetString(Ticket(dict), name) ==
      if name == "ContentRegionUnits" then "escl:ThreeHundredthsOfInches" else Kept(dict, name)
  {
    hide Search, EntryText, Get, Kept, Plain, Edited;
    var all := [(UNITS_KEY, UNITS)] + Edited(dict);
    assert all[1..] == Edited(dict);
    assert Ticket(dict) == EntriesText(all);
    EditedPlain(dict);
    assert Plain((UNITS_KEY, UNITS)) by { UnitsPlain(); }
    EntriesRead(Ticket(dict), 0, all, name);
    if name == UNITS_KEY {
      GetFirst(all);
    } else {
      GetTail(all, name);
      EditedHolds(dict, name);
    }
  }

  lemma UnitsPlain()
    ensures Plain((UNITS_KEY, UNITS))
  {
  }
}
