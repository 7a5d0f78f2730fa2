/** The local files the SQL-generating scripts read and write, by path. Write failures
    (permissions, a full disk) are not modelled. */
module LocalFiles {

  class FileSystem {
    var files: map<string, string>

    constructor (existing: map<string, string>)
      ensures files == existing
    {
      files := existing;
    }

    /** `open(path, "w")`: the file now exists and is empty. */
    method Create(path: string)
      modifies this
      ensures files == old(files)[path := ""]
    {
      files := files[path := ""];
    }

    /** `fs.writeFileSync(path, text)`: the file now holds exactly the text. */
    method WriteFile(path: string, text: string)
      modifies this
      ensures files == old(files)[path := text]
    {
      files := files[path := text];
    }

    /** `f.write(text)` on a file opened for writing. */
    method Append(path: string, text: string)
      requires path in files
      modifies this
      ensures files == old(files)[path := old(files)[path] + text]
    {
      files := files[path := files[path] + text];
    }
  }

  /** Writing a file twice leaves only the second text. */
  lemma UpdateTwice<K, V>(m: map<K, V>, k: K, a: V, b: V)
    ensures m[k := a][k := b] == m[k := b]
  {
  }
}
