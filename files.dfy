/** The files the pipeline writes and reads back, as a value: a map from file
    name to contents. Writing replaces the whole contents of a file; reading a
    name that was never written is the "file not found" case. Files are
    opened in text mode, so reading translates line ends ("universal
    newlines"): "\r\n" and a lone "\r" both become "\n". */
module Files {

  datatype Option<+T> = None | Some(value: T)

  type Disk = map<string, string>

  /** Writing `content` to `name` (the body of save_outline and save_document):
      the file now holds exactly `content`, and no other file changes. */
  function SaveFile(disk: Disk, name: string, content: string): (d: Disk)
    ensures d.Keys == disk.Keys + {name}
    ensures d[name] == content
    ensures forall n :: n in disk && n != name ==> d[n] == disk[n]
  {
    disk[name := content]
  }

  /** The text a text-mode read returns for the stored text `s`: every
      "\r\n" and every other '\r' becomes one '\n'. */
  function UniversalNewlines(s: string): (r: string)
    ensures '\r' !in r
    ensures |r| <= |s|
    decreases |s|
  {
    if s == [] then []
    else if s[0] == '\r' then
      if |s| >= 2 && s[1] == '\n' then "\n" + UniversalNewlines(s[2..])
      else "\n" + UniversalNewlines(s[1..])
    else [s[0]] + UniversalNewlines(s[1..])
  }

  /** The translation changes a text if and only if the text holds a '\r'. */
  lemma {:induction false} UniversalNewlinesUnchangedIff(s: string)
    ensures UniversalNewlines(s) == s <==> '\r' !in s
    decreases |s|
  {
    if s != [] {
      UniversalNewlinesUnchangedIff(s[1..]);
      if s[0] != '\r' {
        assert s == [s[0]] + s[1..];
        assert '\r' in s <==> '\r' in s[1..];
      }
    }
  }

  /** Translating twice is translating once. */
  lemma UniversalNewlinesIdempotent(s: string)
    ensures UniversalNewlines(UniversalNewlines(s)) == UniversalNewlines(s)
  {
    UniversalNewlinesUnchangedIff(UniversalNewlines(s));
  }

  /** Text without a '\r' is left as it is in front of whatever follows. */
  lemma {:induction false} UniversalNewlinesPrefix(x: string, z: string)
    requires '\r' !in x
    ensures UniversalNewlines(x + z) == x + UniversalNewlines(z)
    decreases |x|
  {
    if x != [] {
      assert x[0] in x;
      assert (x + z)[1..] == x[1..] + z;
      UniversalNewlinesPrefix(x[1..], z);
      assert x == [x[0]] + x[1..];
    } else {
      assert x + z == z;
    }
  }

  /** A lone '\r' between two texts without '\r' is read as a line end. */
  lemma LoneCarriageReturnRead(x: string, y: string)
    requires '\r' !in x && '\r' !in y && (y == [] || y[0] != '\n')
    ensures UniversalNewlines(x + "\r" + y) == x + "\n" + y
  {
    var z := "\r" + y;
    assert z[0] == '\r' && z[1..] == y && !(|z| >= 2 && z[1] == '\n');
    UniversalNewlinesUnchangedIff(y);
    assert UniversalNewlines(z) == "\n" + y;
    UniversalNewlinesPrefix(x, z);
    assert x + "\r" + y == x + z;
    assert x + "\n" + y == x + ("\n" + y);
  }

  /** A "\r\n" between two texts without '\r' is read as one line end. */
  lemma CarriageReturnLineFeedRead(x: string, y: string)
    requires '\r' !in x && '\r' !in y
    ensures UniversalNewlines(x + "\r\n" + y) == x + "\n" + y
  {
    var z := "\r\n" + y;
    assert z[0] == '\r' && z[1] == '\n' && z[2..] == y;
    UniversalNewlinesUnchangedIff(y);
    assert UniversalNewlines(z) == "\n" + y;
    UniversalNewlinesPrefix(x, z);
    assert x + "\r\n" + y == x + z;
    assert x + "\n" + y == x + ("\n" + y);
  }

  /** Opening and reading `name` in text mode: None when there is no such
      file, otherwise its contents with line ends translated. */
  function ReadFile(disk: Disk, name: string): (r: Option<string>)
    ensures r.Some? <==> name in disk
    ensures r.Some? ==> '\r' !in r.value
    ensures r.Some? ==> (r.value == disk[name] <==> '\r' !in disk[name])
    ensures r.Some? ==> r.value == UniversalNewlines(disk[name])
  {
    if name in disk then
      UniversalNewlinesUnchangedIff(disk[name]);
      Some(UniversalNewlines(disk[name]))
    else None
  }
}
