/** The parts of the outside world that both monitors touch: the outcome of
    running the `ping` command, and a file system reduced to a map from path
    to file contents. */
module Platform {

  datatype Option<T> = None | Some(value: T)

  /** What `subprocess.check_output` does with one `ping` command: it returns
      the command's standard output when the exit status is zero, raises
      `CalledProcessError` on a non-zero exit, and raises some other exception
      when the command cannot be run at all (the tool is missing, say). */
  datatype CommandOutcome =
    | Exit0(output: string)
    | NonZero
    | OtherError(message: string)

  type Path = string

  /** The contents of `path`, or the empty text when there is no such file
      (which is what appending to a missing file starts from). */
  function FileText(files: map<Path, string>, path: Path): string
  {
    if path in files then files[path] else ""
  }

  /** The files after `text` is appended to `path` by code that opens the
      file only when it has something to write: nothing changes for an empty
      text, and a missing file is created otherwise. */
  function Appended(files: map<Path, string>, path: Path, text: string): map<Path, string>
  {
    if text == "" then files else files[path := FileText(files, path) + text]
  }

  /** Appending grows the one file by exactly the text, creates it only when
      there is something to write, and leaves every other file alone. */
  lemma AppendedOnlyGrowsPath(files: map<Path, string>, path: Path, text: string, other: Path)
    requires other != path
    ensures FileText(Appended(files, path, text), path) == FileText(files, path) + text
    ensures path in Appended(files, path, text) <==> path in files || text != ""
    ensures FileText(Appended(files, path, text), other) == FileText(files, other)
    ensures other in Appended(files, path, text) <==> other in files
  {
    assert FileText(files, path) + "" == FileText(files, path);
  }

  /** Two appends to one file are one append of both texts. */
  lemma AppendedTwice(files: map<Path, string>, path: Path, a: string, b: string)
    ensures Appended(Appended(files, path, a), path, b) == Appended(files, path, a + b)
  {
    if a == "" {
      assert a + b == b;
    } else if b == "" {
      assert a + b == a;
    } else {
      assert FileText(files, path) + a + b == FileText(files, path) + (a + b);
    }
  }

  /** The file system, as a mutable map from path to contents. */
  class Disk {
    var files: map<Path, string>

    constructor (initial: map<Path, string>)
      ensures files == initial
    {
      files := initial;
    }

    predicate Exists(path: Path)
      reads this
    {
      path in files
    }

    /** `open(path, "a")` followed by `f.write(text)`: creates the file when
        it is missing and adds `text` at its end. */
    method Append(path: Path, text: string)
      modifies this
      ensures files == old(files)[path := FileText(old(files), path) + text]
      ensures forall p :: p != path && p in old(files) ==> p in files && files[p] == old(files)[p]
    {
      files := files[path := FileText(files, path) + text];
    }

    /** `open(path, "w")` followed by writing `text`: the file holds exactly
        `text` afterwards, whatever it held before. */
    method Overwrite(path: Path, text: string)
      modifies this
      ensures files == old(files)[path := text]
    {
      files := files[path := text];
    }
  }
}
