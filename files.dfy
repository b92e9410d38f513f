/**
 * The file system the build services read and write, as a map from path to contents.
 *
 * A file is held in the form its reader needs: plain text (Gradle scripts, Java sources,
 * manifests), raw bytes (icons, APKs, archives), the parsed form of a `strings.xml`
 * resource file, or the bytes a base64 text stands for (decoding is not modelled).
 * Directories are implicit: a directory exists when some path lies under it.
 */
module Files {
  import opened Wrappers

  /**
   * One `<string>` element of a `strings.xml` file as the XML parser gives it: its attribute
   * object (absent for an element without attributes) and its text.
   */
  datatype StringEntry = StringEntry(attrs: Option<map<string, string>>, text: string)

  /** The `<resources>` element: its list of `<string>` children, if any, and its other children. */
  datatype ResourcesNode = ResourcesNode(strings: Option<seq<StringEntry>>, otherChildren: seq<string>)

  /** A parsed `strings.xml`; `resources` is absent when the root element is missing or empty. */
  datatype StringsDoc = StringsDoc(resources: Option<ResourcesNode>)

  datatype FileData =
    | Text(text: string)
    | Blob(bytes: seq<bv8>)
    | StringsXml(doc: StringsDoc)
    | Base64Of(encoded: string)

  type Path = string

  /** `path.join(dir, name)` for a name without separators (normalisation is not modelled). */
  function Join(dir: Path, name: string): (p: Path)
    ensures |p| == |dir| + 1 + |name| && p[|dir|] == '/'
    ensures p[..|dir|] == dir && p[|dir| + 1..] == name
  {
    dir + "/" + name
  }

  /** `p` lies strictly below the directory `dir`. */
  predicate IsUnder(p: Path, dir: Path) {
    |p| > |dir| + 1 && p[..|dir| + 1] == dir + "/"
  }

  /** The files under `src`, moved to the same relative paths under `dest`. */
  function Rebased(files: map<Path, FileData>, src: Path, dest: Path): (r: map<Path, FileData>)
    ensures forall p :: p in files && IsUnder(p, src) ==> dest + p[|src|..] in r && r[dest + p[|src|..]] == files[p]
    ensures forall q :: q in r ==> IsUnder(q, dest)
    ensures forall q :: q in r ==> exists p :: p in files && IsUnder(p, src) && q == dest + p[|src|..] && r[q] == files[p]
  {
    var keys := set p | p in files && IsUnder(p, src) :: dest + p[|src|..];
    assert forall p :: IsUnder(p, src) ==> src + p[|src|..] == p && (dest + p[|src|..])[|dest|..] == p[|src|..] by {
      forall p | IsUnder(p, src)
        ensures src + p[|src|..] == p
      {
        assert p[..|src|] == src;
        assert p == p[..|src|] + p[|src|..];
      }
    }
    assert forall p :: IsUnder(p, src) ==> IsUnder(dest + p[|src|..], dest) by {
      forall p | IsUnder(p, src)
        ensures IsUnder(dest + p[|src|..], dest)
      {
        assert p[|src|] == (src + "/")[|src|];
        assert (dest + p[|src|..])[..|dest| + 1] == dest + [p[|src|]];
      }
    }
    map q | q in keys :: files[src + q[|dest|..]]
  }

  class FileSystem {
    var files: map<Path, FileData>

    constructor (initial: map<Path, FileData>)
      ensures files == initial
    {
      files := initial;
    }

    /** `fs.existsSync(p)`. */
    predicate Exists(p: Path)
      reads this
    {
      p in files
    }

    /** `fs.copyFileSync(src, dest)`: fails, changing nothing, when `src` does not exist. */
    method Copy(src: Path, dest: Path) returns (ok: bool)
      modifies this
      ensures ok == (src in old(files))
      ensures files == if ok then old(files)[dest := old(files)[src]] else old(files)
    {
      ok := src in files;
      if ok {
        files := files[dest := files[src]];
      }
    }

    /** `fs.writeFileSync(p, data)`. */
    method Write(p: Path, data: FileData)
      modifies this
      ensures files == old(files)[p := data]
    {
      files := files[p := data];
    }

    /** A recursive copy of the directory `src` to `dest`, overwriting what is there. */
    method CopyTree(src: Path, dest: Path)
      modifies this
      ensures files == old(files) + Rebased(old(files), src, dest)
    {
      files := files + Rebased(files, src, dest);
    }

    /** The files an external process writes. */
    method WriteAll(written: map<Path, FileData>)
      modifies this
      ensures files == old(files) + written
    {
      files := files + written;
    }

    /** `fs.renameSync(src, dest)` on a regular file: fails, changing nothing, when `src` does not exist. */
    method Rename(src: Path, dest: Path) returns (ok: bool)
      modifies this
      ensures ok == (src in old(files))
      ensures ok && src != dest ==> files == (old(files) - {src})[dest := old(files)[src]]
      ensures !ok || src == dest ==> files == old(files)
    {
      ok := src in files;
      if ok && src != dest {
        files := (files - {src})[dest := files[src]];
      }
    }
  }
}
