/** Naming of uploaded images: the stored filename
    `<fieldname>_<milliseconds><extension>` and the URL returned for it. The
    clock reading and the extension of the original name are parameters. */
module ImageUpload {
  import opened Records

  /** The server's port, which the returned URL embeds. */
  const PORT: nat := 4000

  /** The only multipart field `upload.single` accepts. */
  const UPLOAD_FIELD := "product"

  predicate IsDigit(c: char) {
    '0' <= c <= '9'
  }

  predicate AllDigits(s: string) {
    forall i :: 0 <= i < |s| ==> IsDigit(s[i])
  }

  /** A value `path.extname` can return: empty, or starting with a dot. */
  predicate IsExtension(ext: string) {
    ext == [] || ext[0] == '.'
  }

  function DigitChar(d: nat): (c: char)
    requires d < 10
    ensures IsDigit(c)
  {
    (d + '0' as int) as char
  }

  function DigitValue(c: char): (d: nat)
    requires IsDigit(c)
    ensures d < 10 && DigitChar(d) == c
  {
    (c as int - '0' as int) as nat
  }

  /** A natural number as JavaScript writes it in a template literal: its
      shortest decimal form. */
  function Decimal(n: nat): (s: string)
    ensures |s| > 0 && AllDigits(s)
    ensures s[0] == '0' ==> n == 0
    decreases n
  {
    if n < 10 then [DigitChar(n)] else Decimal(n / 10) + [DigitChar(n % 10)]
  }

  /** The number a string of decimal digits denotes. */
  function DecimalValue(s: string): nat
    requires AllDigits(s)
    decreases |s|
  {
    if |s| == 0 then 0 else DecimalValue(s[..|s| - 1]) * 10 + DigitValue(s[|s| - 1])
  }

  /** Reading back a formatted number gives the number. */
  lemma {:induction false} DecimalRoundTrip(n: nat)
    ensures DecimalValue(Decimal(n)) == n
    decreases n
  {
    if n >= 10 {
      DecimalRoundTrip(n / 10);
      var s := Decimal(n);
      assert s[..|s| - 1] == Decimal(n / 10);
    }
  }

  /** Different numbers are formatted differently. */
  lemma DecimalInjective(m: nat, n: nat)
    requires Decimal(m) == Decimal(n)
    ensures m == n
  {
    DecimalRoundTrip(m);
    DecimalRoundTrip(n);
  }

  /** The multer `filename` callback: `${fieldname}_${Date.now()}${extname}`. */
  function FileName(fieldname: string, timestamp: nat, ext: string): (name: string)
    ensures |name| == |fieldname| + 1 + |Decimal(timestamp)| + |ext|
    ensures name[..|fieldname| + 1] == fieldname + "_"
    ensures name[|name| - |ext|..] == ext
    ensures AllDigits(name[|fieldname| + 1..|name| - |ext|])
    ensures DecimalValue(name[|fieldname| + 1..|name| - |ext|]) == timestamp
  {
    var digits := Decimal(timestamp);
    DecimalRoundTrip(timestamp);
    var name := fieldname + "_" + digits + ext;
    assert name[|fieldname| + 1..|name| - |ext|] == digits;
    name
  }

  /** Two uploads under one field collide only when they land in the same
      millisecond with the same extension. */
  lemma FileNameInjective(fieldname: string, t1: nat, ext1: string, t2: nat, ext2: string)
    requires IsExtension(ext1) && IsExtension(ext2)
    requires FileName(fieldname, t1, ext1) == FileName(fieldname, t2, ext2)
    ensures t1 == t2 && ext1 == ext2
  {
  }

  /** `http://localhost:${port}/images/${filename}`, served by the static
      `/images` route. */
  function ImageUrl(filename: string): (url: string)
    ensures url == "http://localhost:4000/images/" + filename
  {
    assert Decimal(4) == "4";
    assert Decimal(40) == "40";
    assert Decimal(400) == "400";
    "http://localhost:" + Decimal(PORT) + "/images/" + filename
  }

  /** A file as multer hands it over: the multipart field it came under and
      the `path.extname` of its original name. */
  datatype UploadedFile = UploadedFile(fieldname: string, extension: string)

  /** The /upload route: multer accepts one file under `product` and names it
      with the current time; with no file, `req.file.filename` throws, and a
      file under any other field is rejected by multer. */
  function Upload(file: Option<UploadedFile>, now: nat): (r: Response)
    ensures r.ImageStored? <==> file.Some? && file.value.fieldname == UPLOAD_FIELD
    ensures !r.ImageStored? ==> r == ServerError
    ensures r.ImageStored? ==>
      r.imageUrl == "http://localhost:4000/images/product_" + Decimal(now) + file.value.extension
  {
    match file
    case None => ServerError
    case Some(f) =>
      if f.fieldname == UPLOAD_FIELD then ImageStored(ImageUrl(FileName(f.fieldname, now, f.extension)))
      else ServerError
  }
}
