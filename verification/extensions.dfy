/** The upload gate: which client-supplied file names the print endpoint accepts,
    judged from the extension alone. */
module Extensions {
  import opened Text

  /** ALLOWED_EXTENSIONS: the suffixes (lower case, without the dot) that may be printed. */
  const AllowedExtensions: set<string> := {"pdf", "doc", "docx", "jpg", "jpeg", "png", "txt"}

  /** allowed_file: the name contains a dot, and the text after its last dot,
      lower-cased, is an allowed extension; so an accepted name holds a dot and at
      least three characters after it. */
  predicate AllowedFile(filename: string)
    ensures AllowedFile(filename) ==> '.' in filename && 4 <= |filename|
  {
    '.' in filename && Lower(RSplitOnce(filename, '.')[1]) in AllowedExtensions
  }

  /** The gate accepts exactly the names having some dot with no dot after it and an
      allowed extension after it, ignoring case. */
  lemma AllowedFileIff(filename: string)
    ensures AllowedFile(filename) <==>
      exists i :: 0 <= i < |filename| && filename[i] == '.' && '.' !in filename[i + 1..]
                  && Lower(filename[i + 1..]) in AllowedExtensions
  {
    if AllowedFile(filename) {
      var i := LastIndexOf(filename, '.').value;
      assert RSplitOnce(filename, '.')[1] == filename[i + 1..];
    }
    if exists i :: 0 <= i < |filename| && filename[i] == '.' && '.' !in filename[i + 1..]
                   && Lower(filename[i + 1..]) in AllowedExtensions {
      var i :| 0 <= i < |filename| && filename[i] == '.' && '.' !in filename[i + 1..]
               && Lower(filename[i + 1..]) in AllowedExtensions;
      LastIndexOfUnique(filename, '.', i);
    }
  }

  /** Only the last suffix counts: whatever comes before the last dot, the name is
      accepted exactly when the final suffix is allowed. */
  lemma LastSuffixDecides(stem: string, ext: string)
    requires '.' !in ext
    ensures AllowedFile(stem + "." + ext) <==> Lower(ext) in AllowedExtensions
  {
    assert stem + "." + ext == stem + ['.'] + ext;
    RSplitOnceOfJoined(stem, '.', ext);
  }

  /** A name without a dot is always rejected. */
  lemma NoDotRejected(filename: string)
    requires '.' !in filename
    ensures !AllowedFile(filename)
  {
  }

  /** The gate ignores case: a name and its lower-cased form are judged alike. */
  lemma AllowedFileIgnoresCase(filename: string)
    ensures AllowedFile(Lower(filename)) <==> AllowedFile(filename)
  {
    var low := Lower(filename);
    LowerKeepsNonLetters(filename, '.');
    if '.' in filename {
      var i := LastIndexOf(filename, '.').value;
      assert low[i] == '.';
      LowerSlice(filename, i + 1, |filename|);
      assert low[i + 1..] == Lower(filename[i + 1..]);
      assert '.' !in low[i + 1..] by {
        LowerKeepsNonLetters(filename[i + 1..], '.');
      }
      LastIndexOfUnique(low, '.', i);
      assert RSplitOnce(low, '.')[1] == low[i + 1..];
      assert RSplitOnce(filename, '.')[1] == filename[i + 1..];
      LowerIdempotent(filename[i + 1..]);
    }
  }

  /** `a.exe.PDF` is accepted: only the last suffix counts, and its case does not. */
  lemma AcceptsUpperCaseLastSuffix()
    ensures AllowedFile("a.exe.PDF")
  {
    assert "a.exe.PDF" == "a.exe" + "." + "PDF";
    LastSuffixDecides("a.exe", "PDF");
    assert Lower("PDF") == "pdf";
  }

  /** `a.pdf.exe` is rejected: an allowed suffix that is not the last one does not help. */
  lemma RejectsInnerAllowedSuffix()
    ensures !AllowedFile("a.pdf.exe")
  {
    assert "a.pdf.exe" == "a.pdf" + "." + "exe";
    LastSuffixDecides("a.pdf", "exe");
    LowerOfLowerCase("exe");
    assert "exe" !in AllowedExtensions;
  }

  /** A name ending in a dot has an empty last suffix and is rejected. */
  lemma RejectsTrailingDot()
    ensures !AllowedFile("trailingdot.")
  {
    assert "trailingdot." == "trailingdot" + "." + "";
    LastSuffixDecides("trailingdot", "");
  }
}
