/** The template registry built at start-up from one directory listing: every
    entry that is a regular file whose extension is ".html" and whose contents
    compile is registered under its slug, the file name without ".html".
    Entries that fail to compile are skipped; nothing aborts the load. */
module Templates {
  import opened Mail

  /** One entry of the directory listing, with the outcome of compiling the
      file as a template (compilation itself is outside the model). */
  datatype DirEntry = DirEntry(name: string, isDir: bool, parsesOk: bool)

  const TemplateExt: string := ".html"

  predicate HasSuffix(s: string, suffix: string)
  {
    |suffix| <= |s| && s[|s| - |suffix|..] == suffix
  }

  /** The extension found by scanning `path` backwards from index `n - 1`, as
      the library's path helper does: the suffix of `path` from the last '.'
      met before any '/', or "" when there is none. */
  function ExtScan(path: string, n: nat): (e: string)
    requires n <= |path|
    ensures e == "" || (e[0] == '.' && |path| - n < |e| <= |path| && e == path[|path| - |e|..])
    ensures e != "" ==> forall j | |path| - |e| < j < n :: path[j] != '.' && path[j] != '/'
  {
    if n == 0 || path[n - 1] == '/' then ""
    else if path[n - 1] == '.' then path[n - 1..]
    else ExtScan(path, n - 1)
  }

  /** When the scan finds nothing, no '.' lies between index 0 and `n` without
      a '/' after it (before `n`). */
  lemma {:induction false} ExtScanNone(path: string, n: nat)
    requires n <= |path| && ExtScan(path, n) == ""
    ensures forall j | 0 <= j < n && '/' !in path[j..n] :: path[j] != '.'
    decreases n
  {
    if n > 0 {
      if path[n - 1] == '/' {
        forall j | 0 <= j < n ensures '/' in path[j..n] {
          assert path[j..n][n - 1 - j] == '/';
        }
      } else {
        ExtScanNone(path, n - 1);
        forall j | 0 <= j < n - 1 && '/' !in path[j..n] ensures path[j] != '.' {
          assert path[j..n] == path[j..n - 1] + [path[n - 1]];
        }
      }
    }
  }

  /** The file-name extension of `path`: the suffix from the last '.' of the
      final path element, or "" when that element has no '.'. */
  function Ext(path: string): (e: string)
    ensures e == "" || (e[0] == '.' && HasSuffix(path, e))
    ensures e != "" ==> '.' !in e[1..] && '/' !in e
    ensures e == "" ==> forall j | 0 <= j < |path| && '/' !in path[j..] :: path[j] != '.'
  {
    var e := ExtScan(path, |path|);
    if e == "" then
      ExtScanNone(path, |path|);
      assert forall j | 0 <= j < |path| :: path[j..] == path[j..|path|];
      e
    else
      assert forall i | 0 <= i < |e| :: e[i] == path[|path| - |e| + i];
      e
  }

  /** Characters other than '.' and '/' are passed over by the scan. */
  lemma {:induction false} ExtScanSkips(path: string, m: nat, n: nat)
    requires m <= n <= |path|
    requires forall j | m <= j < n :: path[j] != '.' && path[j] != '/'
    ensures ExtScan(path, n) == ExtScan(path, m)
    decreases n
  {
    if m < n {
      ExtScanSkips(path, m, n - 1);
    }
  }

  /** The registry's extension test is exactly "the name ends in .html". */
  lemma ExtIsHtml(name: string)
    ensures Ext(name) == TemplateExt <==> HasSuffix(name, TemplateExt)
  {
    var n := |name|;
    if HasSuffix(name, TemplateExt) {
      var tail := name[n - 5..];
      assert tail == TemplateExt;
      forall j | n - 4 <= j < n ensures name[j] != '.' && name[j] != '/' {
        assert name[j] == tail[j - (n - 5)];
      }
      ExtScanSkips(name, n - 4, n);
      assert name[n - 5] == tail[0] == '.';
    }
  }

  /** The slug a template file is registered under. */
  function Slug(name: string): (slug: string)
    requires HasSuffix(name, TemplateExt)
    ensures slug + TemplateExt == name
  {
    name[..|name| - 5]
  }

  /** Whether loading the entry adds it to the registry. */
  predicate Registers(e: DirEntry)
  {
    !e.isDir && Ext(e.name) == TemplateExt && e.parsesOk
  }

  /** The slug of an entry that passes the directory and extension tests. */
  function EntrySlug(e: DirEntry): string
    requires Ext(e.name) == TemplateExt
  {
    ExtIsHtml(e.name);
    Slug(e.name)
  }

  /** The registry after loading `entries`, in order, into `m`. */
  function RegistryFrom(m: map<string, Template>, entries: seq<DirEntry>): map<string, Template>
  {
    if entries == [] then m
    else
      var e := entries[|entries| - 1];
      var before := RegistryFrom(m, entries[..|entries| - 1]);
      if Registers(e) then before[EntrySlug(e) := FileTemplate(e.name)] else before
  }

  /** The registry the service starts with. */
  function Registry(entries: seq<DirEntry>): map<string, Template>
  {
    RegistryFrom(map[], entries)
  }

  /** The entry at index `i` is registered under `slug`. */
  predicate RegistersAs(entries: seq<DirEntry>, i: int, slug: string)
  {
    0 <= i < |entries| && Registers(entries[i]) && EntrySlug(entries[i]) == slug
  }

  /** A slug is in the registry exactly when some entry registers it. */
  lemma RegistryKeys(entries: seq<DirEntry>, slug: string)
    ensures slug in Registry(entries) <==> exists i :: RegistersAs(entries, i, slug)
  {
    if slug in Registry(entries) {
      RegisteredHasEntry(entries, slug);
    }
    forall i | RegistersAs(entries, i, slug) ensures slug in Registry(entries) {
      EntryIsRegistered(entries, i, slug);
    }
  }

  lemma {:induction false} RegisteredHasEntry(entries: seq<DirEntry>, slug: string)
    requires slug in Registry(entries)
    ensures exists i :: RegistersAs(entries, i, slug)
  {
    var last := |entries| - 1;
    var init := entries[..last];
    var e := entries[last];
    if Registers(e) && EntrySlug(e) == slug {
      assert RegistersAs(entries, last, slug);
    } else {
      assert slug in Registry(init);
      RegisteredHasEntry(init, slug);
      var i :| RegistersAs(init, i, slug);
      assert init[i] == entries[i];
      assert RegistersAs(entries, i, slug);
    }
  }

  lemma {:induction false} EntryIsRegistered(entries: seq<DirEntry>, i: int, slug: string)
    requires RegistersAs(entries, i, slug)
    ensures slug in Registry(entries)
  {
    var last := |entries| - 1;
    var init := entries[..last];
    if i < last {
      assert init[i] == entries[i];
      EntryIsRegistered(init, i, slug);
      assert Registry(init).Keys <= Registry(entries).Keys;
    }
  }

  /** A registered slug holds the template of the last entry that registers it;
      an entry that is a directory, has another extension or does not compile
      contributes nothing. */
  lemma {:induction false} RegistryValue(entries: seq<DirEntry>, i: nat)
    requires i < |entries| && Registers(entries[i])
    requires forall j | i < j < |entries| :: !RegistersAs(entries, j, EntrySlug(entries[i]))
    ensures EntrySlug(entries[i]) in Registry(entries)
    ensures Registry(entries)[EntrySlug(entries[i])] == FileTemplate(entries[i].name)
  {
    if i < |entries| - 1 {
      var init := entries[..|entries| - 1];
      forall j | i < j < |init| ensures !RegistersAs(init, j, EntrySlug(init[i])) {
        assert init[j] == entries[j];
        assert !RegistersAs(entries, j, EntrySlug(entries[i]));
      }
      RegistryValue(init, i);
    }
  }
}
