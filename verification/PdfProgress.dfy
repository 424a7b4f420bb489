/**
 * What a PDF file holds after any number of scan lines: the definitions
 * recorded so far and their order, the pages the lines make up, and the
 * objects of the file while its last page is open.
 */
module PdfProgress {
  import opened Arithmetic
  import opened Text
  import opened ImageEncoding
  import opened PdfFormat

  // ---- object definitions recorded while writing ---------------------------

  datatype ObjDef = ObjDef(id: nat, offset: nat)

  /** The definitions a writer has recorded after the given objects. */
  function Defs(objs: seq<Obj>): (r: seq<ObjDef>)
    ensures |r| == |objs| && forall j :: 0 <= j < |objs| ==> r[j] == ObjDef(objs[j].id, Offset(objs, j))
  {
    seq(|objs|, j requires 0 <= j < |objs| => ObjDef(objs[j].id, Offset(objs, j)))
  }

  lemma TextsSnoc(objs: seq<Obj>, o: Obj)
    ensures Texts(objs + [o]) == Texts(objs) + o.text
  {
    assert (objs + [o])[..|objs|] == objs;
  }

  lemma DefsSnoc(objs: seq<Obj>, o: Obj)
    ensures Defs(objs + [o]) == Defs(objs) + [ObjDef(o.id, |HEADER| + |Texts(objs)|)]
  {
    hide Texts;
    var more := objs + [o];
    forall j | 0 <= j <= |objs|
      ensures Offset(more, j) == Offset(objs, j)
    {
      assert more[..j] == objs[..j];
    }
    assert objs[..|objs|] == objs;
  }

  lemma ObjectAdded(objs: seq<Obj>, o: Obj)
    ensures Texts(objs + [o]) == Texts(objs) + o.text
    ensures Defs(objs + [o]) == Defs(objs) + [ObjDef(o.id, |HEADER| + |Texts(objs)|)]
  {
    TextsSnoc(objs, o);
    DefsSnoc(objs, o);
  }

  /** Text appended to the file belongs to the last object and moves no offset. */
  lemma ObjectExtended(objs: seq<Obj>, id: nat, t: string, s: string)
    ensures Texts(objs + [Obj(id, t)]) + s == Texts(objs + [Obj(id, t + s)])
    ensures Defs(objs + [Obj(id, t)]) == Defs(objs + [Obj(id, t + s)])
  {
    hide Texts, Defs;
    ObjectAdded(objs, Obj(id, t));
    ObjectAdded(objs, Obj(id, t + s));
  }

  // ---- std::sort by object id ----------------------------------------------

  function Insert(d: ObjDef, s: seq<ObjDef>): seq<ObjDef> {
    if s == [] || s[|s| - 1].id <= d.id then s + [d]
    else Insert(d, s[..|s| - 1]) + [s[|s| - 1]]
  }

  function SortById(s: seq<ObjDef>): seq<ObjDef> {
    if s == [] then [] else Insert(s[|s| - 1], SortById(s[..|s| - 1]))
  }

  predicate Sorted(s: seq<ObjDef>) {
    |s| >= 2 ==> s[|s| - 2].id <= s[|s| - 1].id && Sorted(s[..|s| - 1])
  }

  lemma {:induction false} InsertPermutes(d: ObjDef, s: seq<ObjDef>)
    ensures multiset(Insert(d, s)) == multiset(s) + multiset{d}
  {
    if s != [] && s[|s| - 1].id > d.id {
      InsertPermutes(d, s[..|s| - 1]);
      assert s == s[..|s| - 1] + [s[|s| - 1]];
    }
  }

  lemma {:induction false} InsertSorts(d: ObjDef, s: seq<ObjDef>)
    requires Sorted(s)
    ensures Sorted(Insert(d, s)) && Insert(d, s) != []
    ensures Insert(d, s)[|Insert(d, s)| - 1] == if s == [] || s[|s| - 1].id <= d.id then d else s[|s| - 1]
  {
    if s == [] || s[|s| - 1].id <= d.id {
      assert (s + [d])[..|s|] == s;
    } else {
      var front, last := s[..|s| - 1], s[|s| - 1];
      InsertSorts(d, front);
      assert (Insert(d, front) + [last])[..|Insert(d, front)|] == Insert(d, front);
    }
  }

  lemma InsertLast(d: ObjDef, s: seq<ObjDef>)
    requires forall i :: 0 <= i < |s| ==> s[i].id < d.id
    ensures Insert(d, s) == s + [d]
  {
  }

  lemma SortStep(s: seq<ObjDef>, k: nat)
    requires k < |s|
    ensures SortById(s[..k + 1]) == Insert(s[k], SortById(s[..k]))
  {
    assert s[..k + 1][..k] == s[..k];
  }

  lemma EmptySorted()
    ensures Sorted([])
  {
  }

  /** The stand-in for std::sort is a stable sorted permutation. */
  lemma {:induction false} SortByIdSorts(s: seq<ObjDef>)
    ensures Sorted(SortById(s)) && multiset(SortById(s)) == multiset(s)
  {
    hide Insert, Sorted;
    if s == [] {
      EmptySorted();
    } else {
      var front, d := s[..|s| - 1], s[|s| - 1];
      SortByIdSorts(front);
      InsertPermutes(d, SortById(front));
      InsertSorts(d, SortById(front));
      assert s == front + [d];
    }
  }

  lemma {:induction false} InsertFirst(d: ObjDef, s: seq<ObjDef>)
    requires forall i :: 0 <= i < |s| ==> d.id < s[i].id
    ensures Insert(d, s) == [d] + s
  {
    if s != [] {
      InsertFirst(d, s[..|s| - 1]);
    }
  }

  lemma {:induction false} SortAscending(s: seq<ObjDef>)
    requires forall i, j :: 0 <= i < j < |s| ==> s[i].id < s[j].id
    ensures SortById(s) == s
  {
    hide Insert;
    if s != [] {
      var front, last := s[..|s| - 1], s[|s| - 1];
      SortAscending(front);
      InsertLast(last, front);
      assert s == front + [last];
    }
  }

  lemma SortTail(s: seq<ObjDef>, k: nat, t: seq<ObjDef>)
    requires k < |s| && SortById(s[..k]) == t && forall i :: 0 <= i < |t| ==> t[i].id < s[k].id
    ensures SortById(s[..k + 1]) == t + [s[k]]
  {
    hide SortById, Insert;
    SortStep(s, k);
    InsertLast(s[k], t);
  }

  lemma SortFront(s: seq<ObjDef>, m: nat)
    requires m < |s| && s[m].id == 1 && forall j :: 0 <= j < m ==> s[j].id == j + 2
    ensures SortById(s[..m + 1]) == [s[m]] + s[..m]
  {
    hide SortById, Insert;
    SortAscending(s[..m]);
    InsertFirst(s[m], s[..m]);
    SortStep(s, m);
  }

  lemma SortRotated(s: seq<ObjDef>, m: nat)
    requires |s| == m + 3 && forall j :: 0 <= j < m ==> s[j].id == j + 2
    requires s[m].id == 1 && s[m + 1].id == m + 2 && s[m + 2].id == m + 3
    ensures SortById(s) == [s[m]] + s[..m] + [s[m + 1], s[m + 2]]
  {
    hide SortById;
    var t := [s[m]] + s[..m];
    assert forall i :: 0 <= i < |t| ==> t[i].id == i + 1;
    SortFront(s, m);
    SortTail(s, m + 1, t);
    var t' := t + [s[m + 1]];
    assert forall i :: 0 <= i < |t'| ==> t'[i].id == i + 1;
    SortTail(s, m + 2, t');
    assert s[..m + 3] == s;
    assert t' + [s[m + 2]] == t + [s[m + 1], s[m + 2]];
  }

  /** Numbered from 2 on, in file order. */
  predicate Numbered(objs: seq<Obj>) {
    forall j :: 0 <= j < |objs| ==> objs[j].id == j + 2
  }

  /** The recorded order 2, ..., m+1, 1, m+2, m+3 becomes the order of the table. */
  lemma SortedDefs(objs: seq<Obj>, count: nat, info: string)
    requires Numbered(objs)
    ensures
      var all := Complete(objs, count, info);
      var sorted := SortById(Defs(all));
      |sorted| == |all| && forall i :: 0 <= i < |all| ==> sorted[i] == ObjDef(i + 1, Offsets(all)[i])
  {
    hide Offset, PagesObj, CatalogObj, InfoObj, SortById;
    var all, m := Complete(objs, count, info), |objs|;
    var s := Defs(all);
    RecordedIds(objs, count, info);
    SortRotated(s, m);
    var sorted := [s[m]] + s[..m] + [s[m + 1], s[m + 2]];
    forall i | 0 <= i < m + 3
      ensures sorted[i] == ObjDef(i + 1, Offsets(all)[i])
    {
      assert sorted[i] == s[FileIndex(m + 3, i + 1)];
      assert Offsets(all)[(i + 1) - 1] == Offset(all, FileIndex(m + 3, i + 1));
    }
  }

  lemma RecordedIds(objs: seq<Obj>, count: nat, info: string)
    requires Numbered(objs)
    ensures
      var s, m := Defs(Complete(objs, count, info)), |objs|;
      && (forall j :: 0 <= j < m ==> s[j].id == j + 2)
      && s[m].id == 1 && s[m + 1].id == m + 2 && s[m + 2].id == m + 3
  {
    hide Offset;
    var all := Complete(objs, count, info);
    forall j | 0 <= j < |objs|
      ensures Defs(all)[j].id == j + 2
    {
      assert all[j] == objs[j];
    }
  }

  // ---- what the lines written so far amount to -----------------------------

  /** The lines of every finished page, and those of the open one. */
  datatype Progress = Progress(pages: seq<seq<string>>, open: seq<string>)

  function Feed(h: int, pr: Progress, line: string): Progress {
    if |pr.open| + 1 == h then Progress(pr.pages + [pr.open + [line]], [])
    else Progress(pr.pages, pr.open + [line])
  }

  function Collect(h: int, lines: seq<string>): Progress {
    if lines == [] then Progress([], [])
    else Feed(h, Collect(h, lines[..|lines| - 1]), lines[|lines| - 1])
  }

  function Flatten(pages: seq<seq<string>>): seq<string> {
    if pages == [] then [] else Flatten(pages[..|pages| - 1]) + pages[|pages| - 1]
  }

  /** The image stream of each page. */
  function Streams(pages: seq<seq<string>>): (r: seq<string>)
    ensures |r| == |pages| && forall i :: 0 <= i < |pages| ==> r[i] == Concat(pages[i])
  {
    seq(|pages|, i requires 0 <= i < |pages| => Concat(pages[i]))
  }

  /** Pages are cut off in order, each with exactly h lines, and nothing is lost. */
  lemma {:induction false} CollectSplits(h: int, lines: seq<string>)
    ensures
      var pr := Collect(h, lines);
      && Flatten(pr.pages) + pr.open == lines
      && (forall i :: 0 <= i < |pr.pages| ==> |pr.pages[i]| == h)
      && |pr.pages| == ImagesAfter(h, |lines|) && |pr.open| == LinesAfter(h, |lines|)
  {
    if lines == [] {
      FirstLine(h, 0);
    } else {
      var front, line := lines[..|lines| - 1], lines[|lines| - 1];
      CollectSplits(h, front);
      NextLine(h, |front|);
      var pr := Collect(h, front);
      assert lines == front + [line];
      assert (pr.pages + [pr.open + [line]])[..|pr.pages|] == pr.pages;
    }
  }

  predicate Uniform(lines: seq<string>, n: nat) {
    forall i :: 0 <= i < |lines| ==> |lines[i]| == n
  }

  lemma {:induction false} ConcatLength(lines: seq<string>, n: nat)
    requires Uniform(lines, n)
    ensures |Concat(lines)| == |lines| * n
  {
    if lines != [] {
      ConcatLength(lines[1..], n);
      Distribute(|lines|, 1, n);
    }
  }

  lemma {:induction false} PagesUniform(h: int, lines: seq<string>, n: nat)
    requires Uniform(lines, n)
    ensures Uniform(Collect(h, lines).open, n)
    ensures forall i :: 0 <= i < |Collect(h, lines).pages| ==> Uniform(Collect(h, lines).pages[i], n)
  {
    if lines != [] {
      var front, line := lines[..|lines| - 1], lines[|lines| - 1];
      PagesUniform(h, front, n);
      assert Uniform(Collect(h, front).open + [line], n);
    }
  }

  /** Every finished page stream has exactly the declared height * bytesPerLine bytes. */
  lemma PageLengths(h: nat, lines: seq<string>, n: nat)
    requires Uniform(lines, n)
    ensures Uniform(Streams(Collect(h, lines).pages), h * n)
  {
    CollectSplits(h, lines);
    PagesUniform(h, lines, n);
    var pages := Collect(h, lines).pages;
    forall i | 0 <= i < |pages|
      ensures |Streams(pages)[i]| == h * n
    {
      ConcatLength(pages[i], n);
    }
  }

  // ---- the file while it is being written ----------------------------------

  /** The objects in the file so far; the image object of an open page is not complete. */
  function OpenObjects(l: Layout, pr: Progress): seq<Obj> {
    PageObjects(l, Streams(pr.pages)) +
    if pr.open == [] then [] else OpenPage(l, 3 * |pr.pages| + 2, pr.open)
  }

  /** The same once a page has been begun, though it may have no line yet. */
  function BegunObjects(l: Layout, pr: Progress): seq<Obj> {
    PageObjects(l, Streams(pr.pages)) + OpenPage(l, 3 * |pr.pages| + 2, pr.open)
  }

  lemma OpenNumbered(l: Layout, pr: Progress)
    ensures Numbered(OpenObjects(l, pr))
    ensures |OpenObjects(l, pr)| == 3 * |pr.pages| + if pr.open == [] then 0 else 2
  {
    hide Render, Concat;
    var objs, streams := OpenObjects(l, pr), Streams(pr.pages);
    forall j | 0 <= j < 3 * |streams|
      ensures objs[j].id == j + 2
    {
      assert objs[j] == PagePart(l, streams, j);
    }
  }

  /** The objects of the file if it is ended now. */
  function Final(l: Layout, info: string, pr: Progress): (objs: seq<Obj>)
    ensures |objs| >= 3
  {
    Complete(OpenObjects(l, pr), |pr.pages|, info)
  }

  /** The document that ends here; its last page may be open. */
  function Ended(l: Layout, info: string, fileId: string, pr: Progress): string {
    File(Final(l, info, pr), fileId)
  }

  lemma EndedWhole(l: Layout, info: string, fileId: string, pages: seq<seq<string>>)
    ensures Final(l, info, Progress(pages, [])) == Objects(l, info, Streams(pages))
    ensures Ended(l, info, fileId, Progress(pages, [])) == Document(l, info, fileId, Streams(pages))
  {
    hide PageObjects, Complete, File;
    assert PageObjects(l, Streams(pages)) + [] == PageObjects(l, Streams(pages));
  }

  function OpenPage(l: Layout, k: nat, lines: seq<string>): seq<Obj> {
    [PageObj(l, k), Obj(k + 1, Render(ImagePieces(l, k + 1)) + Concat(lines))]
  }

  lemma PageCompleted(l: Layout, pages: seq<string>, data: string)
    ensures
      var k := 3 * |pages| + 2;
      PageObjects(l, pages + [data]) ==
      PageObjects(l, pages) + [PageObj(l, k), ImageObj(l, k + 1, data)] + [ContentsObj(l, k + 2)]
  {
    hide PageObj, ImageObj, ContentsObj;
    var more, n := pages + [data], |pages|;
    var old', new' := PageObjects(l, pages), PageObjects(l, more);
    forall j | 0 <= j < 3 * n
      ensures new'[j] == old'[j]
    {
      assert j / 3 < n && more[j / 3] == pages[j / 3];
    }
    assert new'[3 * n] == PagePart(l, more, 3 * n);
    assert new'[3 * n + 1] == PagePart(l, more, 3 * n + 1) && (3 * n + 1) / 3 == n;
    assert new'[3 * n + 2] == PagePart(l, more, 3 * n + 2);
  }
}
