/** Export of the live preview as a PNG image or as a one-page PDF: the file
    name the download gets and the placement of the captured image on the
    page. Capturing the preview, encoding the image and writing the PDF are
    done by foreign libraries; here the capture is an input (its pixel size)
    and the result is a description of the file that would be saved. */
module PdfGenerator {
  import opened Records
  import opened Text

  // ---------------------------------------------------------------------
  // File names: prescription_<name with blanks as _>_<date>.<ext>
  // ---------------------------------------------------------------------

  /** Drops the leading whitespace of s. */
  function SkipSpace(s: string): (r: string)
    ensures |r| <= |s| && r == s[|s| - |r|..]
    ensures AllSpace(s[..|s| - |r|])
    ensures r == [] || !IsSpace(r[0])
  {
    if s != [] && IsSpace(s[0]) then SkipSpace(s[1..]) else s
  }

  /** `name.replace(/\s+/g, '_')`: every maximal run of whitespace becomes
      one underscore. */
  function Underscore(name: string): (r: string)
    ensures NoSpace(r)
    decreases |name|
  {
    if name == [] then []
    else if IsSpace(name[0]) then "_" + Underscore(SkipSpace(name[1..]))
    else [name[0]] + Underscore(name[1..])
  }

  /** A name without whitespace is left as it is. */
  lemma {:induction false} UnderscorePlain(s: string)
    requires NoSpace(s)
    ensures Underscore(s) == s
  {
    if s != [] {
      UnderscorePlain(s[1..]);
      assert [s[0]] + s[1..] == s;
    }
  }

  /** Applying the replacement twice is applying it once. */
  lemma UnderscoreIdempotent(s: string)
    ensures Underscore(Underscore(s)) == Underscore(s)
  {
    UnderscorePlain(Underscore(s));
  }

  lemma {:induction false} SkipSpaceOver(run: string, t: string)
    requires AllSpace(run)
    requires t == [] || !IsSpace(t[0])
    ensures SkipSpace(run + t) == t
  {
    if run != [] {
      assert (run + t)[1..] == run[1..] + t;
      SkipSpaceOver(run[1..], t);
    }
  }

  /** A word, then a run of whitespace, then text that does not start with
      whitespace: the word is kept, the whole run becomes exactly one
      underscore, and the rest is treated the same way. */
  lemma {:induction false} UnderscoreRun(word: string, run: string, rest: string)
    requires NoSpace(word)
    requires run != [] && AllSpace(run)
    requires rest == [] || !IsSpace(rest[0])
    ensures Underscore(word + run + rest) == word + "_" + Underscore(rest)
    decreases |word|
  {
    var s := word + run + rest;
    if word == [] {
      assert s == run + rest && s[0] == run[0];
      assert s[1..] == run[1..] + rest;
      SkipSpaceOver(run[1..], rest);
      assert Underscore(s) == "_" + Underscore(SkipSpace(s[1..]));
    } else {
      assert s[0] == word[0] && !IsSpace(word[0]);
      assert s[1..] == word[1..] + run + rest;
      assert Underscore(s) == [word[0]] + Underscore(s[1..]);
      UnderscoreRun(word[1..], run, rest);
      assert [word[0]] + (word[1..] + "_" + Underscore(rest)) == word + "_" + Underscore(rest);
    }
  }

  /** The characters of s that are not whitespace, in order. */
  function Visible(s: string): string {
    if s == [] then [] else if IsSpace(s[0]) then Visible(s[1..]) else [s[0]] + Visible(s[1..])
  }

  /** s without its underscores. */
  function DropUnderscores(s: string): string {
    if s == [] then [] else if s[0] == '_' then DropUnderscores(s[1..]) else [s[0]] + DropUnderscores(s[1..])
  }

  lemma {:induction false} VisibleAfterSpace(run: string, t: string)
    requires AllSpace(run)
    ensures Visible(run + t) == Visible(t)
  {
    if run != [] {
      assert (run + t)[0] == run[0] && IsSpace(run[0]);
      assert (run + t)[1..] == run[1..] + t;
      assert Visible(run + t) == Visible(run[1..] + t);
      VisibleAfterSpace(run[1..], t);
    } else {
      assert run + t == t;
    }
  }

  /** Apart from the underscores it writes, the replacement keeps exactly
      the non-whitespace characters of the name, in their order. */
  lemma {:induction false} UnderscoreKeepsVisible(s: string)
    ensures DropUnderscores(Underscore(s)) == DropUnderscores(Visible(s))
    decreases |s|
  {
    if s == [] {
    } else if IsSpace(s[0]) {
      var t := SkipSpace(s[1..]);
      var k := |s[1..]| - |t|;
      assert s[1..] == s[1..][..k] + t;
      VisibleAfterSpace(s[1..][..k], t);
      UnderscoreKeepsVisible(t);
      assert ("_" + Underscore(t))[1..] == Underscore(t);
    } else {
      UnderscoreKeepsVisible(s[1..]);
      assert ([s[0]] + Underscore(s[1..]))[1..] == Underscore(s[1..]);
      assert ([s[0]] + Visible(s[1..]))[1..] == Visible(s[1..]);
    }
  }

  /** `iso.split('T')[0]`: the text before the first 'T', or all of it. */
  function DatePart(iso: string): (r: string)
    ensures r <= iso && 'T' !in r
    ensures |r| < |iso| ==> iso[|r|] == 'T'
  {
    if iso == [] || iso[0] == 'T' then [] else [iso[0]] + DatePart(iso[1..])
  }

  /** The date part of "<date>T<time>" is <date>, and a timestamp without
      'T' is its own date part. */
  lemma DatePartOf(date: string, rest: string)
    requires 'T' !in date
    ensures DatePart(date + "T" + rest) == date
    ensures DatePart(date) == date
  {
    var iso := date + "T" + rest;
    assert iso[|date|] == 'T';
    assert forall i :: 0 <= i < |date| ==> iso[i] == date[i];
  }

  const ImageExtension: string := ".png"
  const PdfExtension: string := ".pdf"

  /** The name shared by both downloads, without its extension. */
  function FileStem(patientName: string, nowIso: string): (r: string)
    ensures "prescription_" <= r
    ensures |r| >= |DatePart(nowIso)| && r[|r| - |DatePart(nowIso)|..] == DatePart(nowIso)
    ensures NoSpace(r[..|r| - |DatePart(nowIso)|])
  {
    var head := "prescription_" + Underscore(patientName) + "_";
    var date := DatePart(nowIso);
    assert (head + date)[..|head|] == head && (head + date)[|head|..] == date;
    NoSpaceAppend("prescription_", Underscore(patientName));
    NoSpaceAppend("prescription_" + Underscore(patientName), "_");
    head + date
  }

  lemma NoSpaceAppend(a: string, b: string)
    requires NoSpace(a) && NoSpace(b)
    ensures NoSpace(a + b)
  {
    forall i | 0 <= i < |a + b| ensures !IsSpace((a + b)[i]) {
      if i < |a| {
        assert (a + b)[i] == a[i];
      } else {
        assert (a + b)[i] == b[i - |a|];
      }
    }
  }

  function ImageFileName(patientName: string, nowIso: string): (r: string)
    ensures FileStem(patientName, nowIso) <= r && r[|r| - 4..] == ".png"
  {
    FileStem(patientName, nowIso) + ImageExtension
  }

  function PdfFileName(patientName: string, nowIso: string): (r: string)
    ensures FileStem(patientName, nowIso) <= r && r[|r| - 4..] == ".pdf"
  {
    FileStem(patientName, nowIso) + PdfExtension
  }

  /** The two file names are the same up to their last four characters,
      which are ".png" and ".pdf"; neither contains whitespace before the
      date. */
  lemma FileNamesDifferOnlyInExtension(patientName: string, nowIso: string)
    ensures |ImageFileName(patientName, nowIso)| == |PdfFileName(patientName, nowIso)|
    ensures var n := |PdfFileName(patientName, nowIso)|;
      ImageFileName(patientName, nowIso)[..n - 4] == PdfFileName(patientName, nowIso)[..n - 4]
      && ImageFileName(patientName, nowIso)[n - 4..] == ".png"
      && PdfFileName(patientName, nowIso)[n - 4..] == ".pdf"
  {
    var stem := FileStem(patientName, nowIso);
    assert (stem + ".png")[..|stem|] == stem;
    assert (stem + ".pdf")[..|stem|] == stem;
    assert (stem + ".png")[|stem|..] == ".png";
    assert (stem + ".pdf")[|stem|..] == ".pdf";
  }

  /** A two-word name exported at "<date>T<time>": the blank becomes an
      underscore and the time is dropped, as in
      prescription_Sarah_Johnson_2024-01-15.pdf for "Sarah Johnson" on
      2024-01-15T10:30:00.000Z. */
  lemma {:induction false} TwoWordFileName(first: string, last: string, date: string, time: string)
    requires NoSpace(first) && NoSpace(last) && 'T' !in date
    ensures PdfFileName(first + " " + last, date + "T" + time)
         == "prescription_" + first + "_" + last + "_" + date + ".pdf"
    ensures ImageFileName(first + " " + last, date + "T" + time)
         == "prescription_" + first + "_" + last + "_" + date + ".png"
  {
    var blank := " ";
    var name, iso := first + blank + last, date + "T" + time;
    assert AllSpace(blank);
    UnderscoreRun(first, blank, last);
    UnderscorePlain(last);
    assert Underscore(name) == first + "_" + last;
    DatePartOf(date, time);
    FileNamesOf(name, iso, first, last, date);
  }

  lemma FileNamesOf(name: string, iso: string, first: string, last: string, date: string)
    requires Underscore(name) == first + "_" + last && DatePart(iso) == date
    ensures PdfFileName(name, iso) == "prescription_" + first + "_" + last + "_" + date + ".pdf"
    ensures ImageFileName(name, iso) == "prescription_" + first + "_" + last + "_" + date + ".png"
  {
    var p := "prescription_";
    assert p + (first + "_" + last) == p + first + "_" + last;
  }

  // ---------------------------------------------------------------------
  // Fitting the captured image on the page
  // ---------------------------------------------------------------------

  type PosReal = x: real | x > 0.0 witness 1.0

  /** The pixel size of the captured preview. */
  datatype Canvas = Canvas(width: PosReal, height: PosReal)

  /** The page size, in millimetres, as the PDF library reports it (A4 portrait in the app). */
  datatype Page = Page(width: PosReal, height: PosReal)

  /** Where the image is drawn on the page, in millimetres. */
  datatype Placement = Placement(x: real, y: real, width: real, height: real)

  /** Millimetres per pixel at 96 dots per inch. */
  const PxToMm: real := 0.264583

  function Min(a: real, b: real): real {
    if a <= b then a else b
  }

  /** The scale that makes the image as large as the page allows; it is not
      capped at 1. */
  function FitRatio(c: Canvas, page: Page): (r: real)
    ensures r <= page.width / (c.width * PxToMm) && r <= page.height / (c.height * PxToMm)
    ensures r == page.width / (c.width * PxToMm) || r == page.height / (c.height * PxToMm)
  {
    Min(page.width / (c.width * PxToMm), page.height / (c.height * PxToMm))
  }

  lemma ScaleBelow(size: real, limit: real, ratio: real)
    requires size > 0.0 && limit > 0.0 && 0.0 < ratio <= limit / size
    ensures 0.0 < size * ratio <= limit
    ensures ratio == limit / size ==> size * ratio == limit
  {
    assert size * ratio <= size * (limit / size);
  }

  /** The image keeps its aspect ratio, fits inside the page, touches two
      opposite edges of the page, and is centred. */
  function Fit(c: Canvas, page: Page): (p: Placement)
    ensures 0.0 < p.width <= page.width && 0.0 < p.height <= page.height
    ensures p.width == page.width || p.height == page.height
    ensures p.width * c.height == p.height * c.width
    ensures 0.0 <= p.x && 0.0 <= p.y
    ensures 2.0 * p.x + p.width == page.width && 2.0 * p.y + p.height == page.height
  {
    var ratio := FitRatio(c, page);
    var w := c.width * PxToMm * ratio;
    var h := c.height * PxToMm * ratio;
    ScaleBelow(c.width * PxToMm, page.width, ratio);
    ScaleBelow(c.height * PxToMm, page.height, ratio);
    Placement((page.width - w) / 2.0, (page.height - h) / 2.0, w, h)
  }

  lemma Above(size: real, limit: real)
    requires 0.0 < size < limit
    ensures limit / size > 1.0
  {
  }

  lemma Enlarge(size: real, ratio: real, scaled: real)
    requires size > 0.0 && ratio > 1.0 && scaled == size * ratio
    ensures scaled > size
  {
  }

  /** A capture smaller than the page in both directions is enlarged. */
  lemma FitEnlargesSmallCapture(c: Canvas, page: Page)
    requires c.width * PxToMm < page.width && c.height * PxToMm < page.height
    ensures Fit(c, page).width > c.width * PxToMm
    ensures Fit(c, page).height > c.height * PxToMm
  {
    var w, h := c.width * PxToMm, c.height * PxToMm;
    var ratio := FitRatio(c, page);
    Above(w, page.width);
    Above(h, page.height);
    assert ratio > 1.0;
    var f := Fit(c, page);
    Enlarge(w, ratio, f.width);
    Enlarge(h, ratio, f.height);
  }

  // ---------------------------------------------------------------------
  // The two downloads
  // ---------------------------------------------------------------------

  datatype Content =
    | PngImage(image: Canvas)
    | PdfImagePage(page: Page, image: Canvas, placement: Placement)

  /** A file handed to the browser to save. */
  datatype Download = Download(fileName: string, content: Content)

  datatype ExportError = PreviewNotFound

  /** Saves the capture of the preview as a PNG file. `preview` is the
      capture of the preview element, or None when the element lookup fails;
      `nowIso` is the current time as an ISO-8601 string. */
  method DownloadPrescriptionImage(preview: Option<Canvas>, patientName: string, nowIso: string)
    returns (r: Result<Download, ExportError>)
    ensures preview.None? <==> r == Failure(PreviewNotFound)
    ensures preview.Some? ==> r == Success(Download(ImageFileName(patientName, nowIso), PngImage(preview.value)))
  {
    if preview.None? {
      return Failure(PreviewNotFound);
    }
    var canvas := preview.value;
    var fileName := ImageFileName(patientName, nowIso);
    r := Success(Download(fileName, PngImage(canvas)));
  }

  /** Saves the capture of the preview as a one-page PDF, the image scaled to
      fit the page and centred on it. */
  method DownloadPrescriptionPdf(preview: Option<Canvas>, patientName: string, nowIso: string, page: Page)
    returns (r: Result<Download, ExportError>)
    ensures preview.None? <==> r == Failure(PreviewNotFound)
    ensures preview.Some? ==> r.Success? && r.value.fileName == PdfFileName(patientName, nowIso)
    ensures preview.Some? ==> r.value.content == PdfImagePage(page, preview.value, Fit(preview.value, page))
  {
    if preview.None? {
      return Failure(PreviewNotFound);
    }
    var canvas := preview.value;
    var placement := Fit(canvas, page);
    var fileName := PdfFileName(patientName, nowIso);
    r := Success(Download(fileName, PdfImagePage(page, canvas, placement)));
  }
}
