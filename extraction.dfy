/** `get_file_text`: choosing a reader by the lower-cased file suffix. */
module Extraction {
  import opened Basics
  import opened Text

  /** The readers `get_file_text` dispatches to, each a function of the path
      giving the text read or the exception it raised. */
  datatype Readers = Readers(
    pdf: string -> Result<string, Error>,   // extract_text_from_pdf
    docx: string -> Result<string, Error>,  // extract_text_from_docx
    utf8: string -> Result<string, Error>)  // open(path, 'r', encoding='utf-8').read()

  const UNSUPPORTED := "Unsupported file format: "

  /** `Path(path).name`: what follows the last '/'. */
  function FileName(path: string): (name: string)
    ensures '/' !in name
    ensures |name| <= |path| && name == path[|path| - |name|..]
  {
    path[RFind(path, '/') + 1..]
  }

  /** `Path(path).suffix`: the name from its last '.', provided that dot is
      neither the first nor the last character of the name; otherwise empty. */
  function Suffix(path: string): (ext: string)
    ensures ext != [] ==>
      var name := FileName(path);
      && 2 <= |ext| < |name|
      && ext == name[|name| - |ext|..]
      && ext[0] == '.'
      && '.' !in ext[1..]
  {
    var name := FileName(path);
    var i := RFind(name, '.');
    if 0 < i < |name| - 1 then name[i..] else []
  }

  /** The model of `get_file_text`. */
  function GetFileText(path: string, readers: Readers): Result<string, Error> {
    ReaderFor(Lower(Suffix(path)), path, readers)
  }

  predicate IsDirectory(dir: string) {
    dir == [] || dir[|dir| - 1] == '/'
  }

  /** A name placed after a directory part is the file name of the path. */
  lemma FileNameAfterDirectory(dir: string, name: string)
    requires IsDirectory(dir) && '/' !in name
    ensures FileName(dir + name) == name
  {
    if dir != [] {
      RFindBeforeSuffix(dir, name, '/');
    }
  }

  /** The last dot of `stem + ext` is the dot that starts `ext`. */
  lemma LastDotStartsExtension(stem: string, ext: string)
    requires |ext| >= 1 && ext[0] == '.' && '.' !in ext[1..]
    ensures RFind(stem + ext, '.') == |stem|
  {
    var s := stem + ['.'];
    assert ext == ['.'] + ext[1..];
    assert s + ext[1..] == stem + ext;
    RFindBeforeSuffix(s, ext[1..], '.');
  }

  /** A non-empty stem followed by a dot and at least one more character,
      with no further dot, has that dot-part as its suffix. */
  lemma SuffixOfPath(dir: string, stem: string, ext: string)
    requires IsDirectory(dir) && stem != [] && '/' !in stem
    requires |ext| >= 2 && ext[0] == '.' && '.' !in ext[1..] && '/' !in ext
    ensures Suffix(dir + stem + ext) == ext
  {
    var name := stem + ext;
    assert '/' !in name;
    assert dir + stem + ext == dir + name;
    FileNameAfterDirectory(dir, name);
    LastDotStartsExtension(stem, ext);
    assert name[|stem|..] == ext;
  }

  /** The reader that `get_file_text` picks for a lower-cased suffix. */
  function ReaderFor(ext: string, path: string, readers: Readers): Result<string, Error> {
    if ext == ".pdf" then readers.pdf(path)
    else if ext == ".docx" then readers.docx(path)
    else if ext == ".txt" || ext == ".text" then readers.utf8(path)
    else Failure(ValueError(UNSUPPORTED + ext))
  }

  /** The reader is chosen by the lower-cased extension; any other extension
      is rejected with a ValueError that names it. */
  lemma DispatchByExtension(dir: string, stem: string, ext: string, readers: Readers)
    requires IsDirectory(dir) && stem != [] && '/' !in stem
    requires |ext| >= 2 && ext[0] == '.' && '.' !in ext[1..] && '/' !in ext
    ensures var path := dir + stem + ext;
      var low := Lower(ext);
      && (low == ".pdf" ==> GetFileText(path, readers) == readers.pdf(path))
      && (low == ".docx" ==> GetFileText(path, readers) == readers.docx(path))
      && (low == ".txt" || low == ".text" ==> GetFileText(path, readers) == readers.utf8(path))
      && (low != ".pdf" && low != ".docx" && low != ".txt" && low != ".text" ==>
            GetFileText(path, readers) == Failure(ValueError(UNSUPPORTED + low)))
  {
    SuffixOfPath(dir, stem, ext);
  }

  /** A file whose whole name is an extension, such as "notes/.txt", has no
      suffix at all. */
  lemma DotFileHasNoSuffix(dir: string, ext: string)
    requires IsDirectory(dir)
    requires |ext| >= 2 && ext[0] == '.' && '.' !in ext[1..] && '/' !in ext
    ensures Suffix(dir + ext) == []
  {
    FileNameAfterDirectory(dir, ext);
    LastDotStartsExtension([], ext);
    assert [] + ext == ext;
  }

  /** Such a file is rejected, naming the empty suffix. */
  lemma DotFileUnsupported(dir: string, ext: string, readers: Readers)
    requires IsDirectory(dir)
    requires |ext| >= 2 && ext[0] == '.' && '.' !in ext[1..] && '/' !in ext
    ensures GetFileText(dir + ext, readers) == Failure(ValueError(UNSUPPORTED))
  {
    DotFileHasNoSuffix(dir, ext);
    NoSuffixUnsupported(dir + ext, readers);
  }

  /** A path without a suffix is rejected, naming the empty suffix. */
  lemma NoSuffixUnsupported(path: string, readers: Readers)
    requires Suffix(path) == []
    ensures GetFileText(path, readers) == Failure(ValueError(UNSUPPORTED))
  {
    assert Lower([]) == [];
    assert UNSUPPORTED + [] == UNSUPPORTED;
  }
}
