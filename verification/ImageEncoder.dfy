/** The line and page counter every encoder inherits (imageformats/imageencoder.cpp). */
module ImageEncoding {
  import opened Arithmetic

  datatype Colorspace = UnknownColors | Grayscale | RGB

  datatype Settings = Settings(width: nat, height: int, bits: nat, dpi: int, colors: Colorspace)

  function Components(colors: Colorspace): nat {
    if colors.RGB? then 3 else 1
  }

  function BytesPerLine(s: Settings): nat {
    Components(s.colors) * s.width * s.bits / 8
  }

  /** The hooks a subclass implements. */
  datatype Callback = DocumentBegin | ImageBegin | WriteLine | ImageEnd

  function Lines(k: nat): (r: seq<Callback>)
    ensures |r| == k
  {
    seq(k, i => WriteLine)
  }

  /** A complete image of h lines. */
  function Group(h: nat): seq<Callback> {
    [ImageBegin] + Lines(h) + [ImageEnd]
  }

  function Groups(h: nat, n: nat): seq<Callback> {
    if n == 0 then [] else Groups(h, n - 1) + Group(h)
  }

  /** An image of which k lines were written; nothing if there are none. */
  function OpenGroup(k: nat): seq<Callback> {
    if k == 0 then [] else [ImageBegin] + Lines(k)
  }

  /** How many images are complete after k lines, and how many lines the open one has. */
  function ImagesAfter(h: int, k: nat): nat {
    if h >= 1 then k / h else 0
  }

  function LinesAfter(h: int, k: nat): nat {
    if h >= 1 then k % h else k
  }

  /** The hooks fired by k lines: one document, its complete images, and the open one. */
  function Trace(h: int, k: nat): seq<Callback> {
    (if k == 0 then [] else [DocumentBegin]) +
    Groups(if h >= 1 then h else 0, ImagesAfter(h, k)) +
    OpenGroup(LinesAfter(h, k))
  }

  /** The hooks due before line k is written. */
  function HooksBefore(h: int, k: nat): seq<Callback> {
    (if k == 0 then [DocumentBegin] else []) + (if LinesAfter(h, k) == 0 then [ImageBegin] else [])
  }

  /** One more line either extends the open image or completes it. */
  lemma NextLine(h: int, k: nat)
    ensures LinesAfter(h, k) + 1 == h ==> ImagesAfter(h, k + 1) == ImagesAfter(h, k) + 1 && LinesAfter(h, k + 1) == 0
    ensures LinesAfter(h, k) + 1 != h ==>
      ImagesAfter(h, k + 1) == ImagesAfter(h, k) && LinesAfter(h, k + 1) == LinesAfter(h, k) + 1
  {
    if h >= 1 {
      var q, r := k / h, k % h;
      assert k == q * h + r;
      if r + 1 == h {
        assert k + 1 == (q + 1) * h + 0;
        QuotientUnique(h, q + 1, 0);
      } else {
        QuotientUnique(h, q, r + 1);
      }
    }
  }

  /** One more line in the open image, which is complete if h lines are. */
  lemma OpenGroupStep(h: nat, n: nat, r: nat)
    ensures
      var line := (if r == 0 then [ImageBegin] else []) + [WriteLine];
      && OpenGroup(r) + line == OpenGroup(r + 1)
      && (r + 1 == h ==> Groups(h, n) + OpenGroup(r) + line + [ImageEnd] == Groups(h, n + 1))
  {
    hide Lines;
    assert Lines(0) == [] && Lines(r + 1) == Lines(r) + [WriteLine] by { LinesSnoc(r); }
    var line := (if r == 0 then [ImageBegin] else []) + [WriteLine];
    assert OpenGroup(r) + line == OpenGroup(r + 1);
    assert r + 1 == h ==> Groups(h, n) + (OpenGroup(r) + line + [ImageEnd]) == Groups(h, n + 1);
  }

  lemma LinesSnoc(r: nat)
    ensures Lines(0) == [] && Lines(r + 1) == Lines(r) + [WriteLine]
  {
  }

  lemma TraceStep(h: int, k: nat)
    ensures Trace(h, k + 1) ==
      Trace(h, k) + HooksBefore(h, k) + [WriteLine] + (if LinesAfter(h, k + 1) == 0 then [ImageEnd] else [])
  {
    hide Groups, OpenGroup, ImagesAfter, LinesAfter;
    NextLine(h, k);
    FirstLine(h, k);
    FirstLine(h, k + 1);
    NoneYet(h);
    OpenGroupStep(if h >= 1 then h else 0, ImagesAfter(h, k), LinesAfter(h, k));
  }

  lemma NoneYet(h: int)
    ensures Groups(if h >= 1 then h else 0, 0) == [] && OpenGroup(0) == []
    ensures forall k: nat :: h < 1 ==> LinesAfter(h, k) == k && ImagesAfter(h, k) == 0
    ensures forall k: nat :: h >= 1 ==> LinesAfter(h, k) < h
  {
  }

  lemma FirstLine(h: int, k: nat)
    ensures ImagesAfter(h, k) == 0 && LinesAfter(h, k) == 0 <==> k == 0
  {
    if h >= 1 {
      assert k == k / h * h + k % h;
      QuotientUnique(h, 0, 0);
    }
  }

  class ImageEncoder {
    const settings: Settings
    var currentLine: nat
    var currentImage: nat
    ghost var written: nat
    ghost var fired: seq<Callback>  // the hooks that were called and did not throw

    ghost predicate Counts()
      reads this
    {
      && currentImage == ImagesAfter(settings.height, written)
      && currentLine == LinesAfter(settings.height, written)
    }

    /** With a destination set, the counters and the hooks are functions of the lines written. */
    ghost predicate Valid()
      reads this
    {
      Counts() && fired == Trace(settings.height, written)
    }

    /** Between the hooks due before a line and the line itself. */
    ghost predicate Due()
      reads this
    {
      Counts() && fired == Trace(settings.height, written) + HooksBefore(settings.height, written)
    }

    constructor (settings: Settings)
      ensures Valid() && this.settings == settings && written == 0
    {
      this.settings := settings;
      currentLine, currentImage := 0, 0;
      written, fired := 0, [];
      FirstLine(settings.height, 0);
    }

    /** Called by every hook. */
    ghost method Fired(hook: Callback)
      modifies this`fired
      ensures fired == old(fired) + [hook]
    {
      fired := fired + [hook];
    }

    /** Which hooks are due before the next line. */
    method BeforeLine() returns (documentBegin: bool, imageBegin: bool)
      requires Valid()
      ensures documentBegin <==> written == 0
      ensures imageBegin <==> LinesAfter(settings.height, written) == 0
      ensures HooksBefore(settings.height, written) ==
        (if documentBegin then [DocumentBegin] else []) + (if imageBegin then [ImageBegin] else [])
    {
      FirstLine(settings.height, written);
      documentBegin := currentLine == 0 && currentImage == 0;
      imageBegin := currentLine == 0;
    }

    /** Counts the line just written; says whether the hook for a complete image is due. */
    method AfterLine() returns (imageEnd: bool)
      requires Counts()
      requires fired == Trace(settings.height, written) + HooksBefore(settings.height, written) + [WriteLine]
      modifies this`currentLine, this`currentImage, this`written
      ensures Counts() && written == old(written) + 1
      ensures imageEnd <==> LinesAfter(settings.height, written) == 0
      ensures Trace(settings.height, written) == fired + if imageEnd then [ImageEnd] else []
    {
      NextLine(settings.height, written);
      TraceStep(settings.height, written);
      currentLine := currentLine + 1;
      if currentLine == settings.height {
        currentLine := 0;
        currentImage := currentImage + 1;
      }
      imageEnd := currentLine == 0;
      written := written + 1;
    }

    method LinesLeftInCurrentImage() returns (left: int)
      requires Counts()
      ensures left == settings.height - LinesAfter(settings.height, written)
    {
      left := settings.height - currentLine;
    }
  }
}
