/**
 * The token repository: one zero-length marker file per connection that is
 * set to come up automatically. The repository keeps the list of marker
 * names in memory and mirrors it to a directory; each file-system operation
 * reports success or failure through a parameter.
 */
module TokenRepository {
  import opened Text

  /** One entry of a directory listing. */
  datatype DirEntry = DirEntry(name: string, isFile: bool, size: nat)

  /** The last segment of a D-Bus object path; empty when the path has no `/`. */
  function TokenForObjectPath(path: string): (r: string)
    ensures '/' !in path ==> r == ""
    ensures '/' in path ==> exists i :: 0 <= i < |path| && path[i] == '/' && r == path[i + 1..]
    ensures '/' !in r
  {
    var i := LastIndexOf(path, '/');
    assert '/' in path ==> path[i] == '/';
    if i != -1 then path[i + 1..] else ""
  }

  /** `path` ends with `/` followed by its token. */
  lemma TokenIsLastSegment(path: string)
    requires '/' in path
    ensures var t := TokenForObjectPath(path);
      |t| < |path| && path == path[..|path| - |t| - 1] + "/" + t && '/' !in t
  {
    var t := TokenForObjectPath(path);
    var i :| 0 <= i < |path| && path[i] == '/' && t == path[i + 1..];
    assert path == path[..i] + "/" + path[i + 1..];
  }

  predicate NoDuplicates(s: seq<string>) {
    forall i, j :: 0 <= i < j < |s| ==> s[i] != s[j]
  }

  lemma AppendNoDuplicates(a: seq<string>, b: seq<string>)
    requires NoDuplicates(a) && NoDuplicates(b)
    requires forall x :: x in a ==> x !in b
    ensures NoDuplicates(a + b)
  {
    forall i, j | 0 <= i < j < |a + b| ensures (a + b)[i] != (a + b)[j] {
      if i < |a| && j >= |a| {
        assert (a + b)[i] in a && (a + b)[j] in b;
      }
    }
  }

  /** The zero-length regular files of a listing, in listing order. */
  function ZeroLengthFiles(entries: seq<DirEntry>): (r: seq<string>)
    ensures forall t :: t in r <==> exists e :: e in entries && e.isFile && e.size == 0 && e.name == t
  {
    if entries == [] then []
    else
      var e := entries[|entries| - 1];
      assert forall x :: x in entries <==> x in entries[..|entries| - 1] || x == e;
      ZeroLengthFiles(entries[..|entries| - 1]) + (if e.isFile && e.size == 0 then [e.name] else [])
  }

  predicate DistinctNames(entries: seq<DirEntry>) {
    forall i, j :: 0 <= i < j < |entries| ==> entries[i].name != entries[j].name
  }

  lemma {:induction false} ZeroLengthFilesDistinct(entries: seq<DirEntry>)
    requires DistinctNames(entries)
    ensures NoDuplicates(ZeroLengthFiles(entries))
  {
    if entries != [] {
      var init := entries[..|entries| - 1];
      ZeroLengthFilesDistinct(init);
      var e := entries[|entries| - 1];
      forall x | x in init ensures x.name != e.name {
        var k :| 0 <= k < |init| && init[k] == x;
        assert entries[k] == x;
      }
      assert e.name !in ZeroLengthFiles(init);
      AppendNoDuplicates(ZeroLengthFiles(init), if e.isFile && e.size == 0 then [e.name] else []);
    }
  }

  /** The elements of `s` that `known` contains, in order. */
  function Keep(s: seq<string>, known: seq<string>): (r: seq<string>)
    ensures |r| <= |s|
  {
    if s == [] then [] else (if s[0] in known then [s[0]] else []) + Keep(s[1..], known)
  }

  /** The elements of `s` that `known` does not contain, in order. */
  function Drop(s: seq<string>, known: seq<string>): (r: seq<string>)
  {
    if s == [] then [] else (if s[0] !in known then [s[0]] else []) + Drop(s[1..], known)
  }

  /** What `Keep` keeps: exactly the elements of `s` in `known`. */
  lemma {:induction false} KeepMembers(s: seq<string>, known: seq<string>, t: string)
    ensures t in Keep(s, known) <==> t in s && t in known
  {
    if s != [] {
      KeepMembers(s[1..], known, t);
      assert s == [s[0]] + s[1..];
    }
  }

  lemma {:induction false} DropMembers(s: seq<string>, known: seq<string>, t: string)
    ensures t in Drop(s, known) <==> t in s && t !in known
  {
    if s != [] {
      DropMembers(s[1..], known, t);
      assert s == [s[0]] + s[1..];
    }
  }

  /** Filtering a list without duplicates leaves it without duplicates. */
  lemma {:induction false} KeepNoDuplicates(s: seq<string>, known: seq<string>)
    requires NoDuplicates(s)
    ensures NoDuplicates(Keep(s, known))
  {
    if s != [] {
      var tail := s[1..];
      assert NoDuplicates(tail);
      KeepNoDuplicates(tail, known);
      forall x | x in Keep(tail, known) ensures x != s[0] {
        KeepMembers(tail, known, x);
        var k :| 0 <= k < |tail| && tail[k] == x;
        assert s[k + 1] == x;
      }
      AppendNoDuplicates(if s[0] in known then [s[0]] else [], Keep(tail, known));
    }
  }

  lemma Associative(a: seq<string>, b: seq<string>, c: seq<string>)
    ensures a + (b + c) == (a + b) + c
  {
  }

  /** The scan passes over `ts[i]`, a token `known` holds. */
  lemma ScanKeeps(ts: seq<string>, i: nat, known: seq<string>)
    requires i < |ts| && ts[i] in known
    ensures ts[..i + 1] + Keep(ts[i + 1..], known) == ts[..i] + Keep(ts[i..], known)
    ensures Drop(ts[i + 1..], known) == Drop(ts[i..], known)
  {
    assert ts[i..][1..] == ts[i + 1..];
    assert ts[..i + 1] == ts[..i] + [ts[i]];
    Associative(ts[..i], [ts[i]], Keep(ts[i + 1..], known));
  }

  /** The scan erases `ts[i]`, a token `known` does not hold. */
  lemma ScanErases(ts: seq<string>, i: nat, known: seq<string>, attempted: seq<string>)
    requires i < |ts| && ts[i] !in known
    ensures var rest := ts[..i] + ts[i + 1..];
      rest[..i] + Keep(rest[i..], known) == ts[..i] + Keep(ts[i..], known)
      && (attempted + [ts[i]]) + Drop(rest[i..], known) == attempted + Drop(ts[i..], known)
  {
    var rest := ts[..i] + ts[i + 1..];
    assert rest[..i] == ts[..i];
    assert rest[i..] == ts[i + 1..];
    assert ts[i..][1..] == ts[i + 1..];
    Associative(attempted, [ts[i]], Drop(ts[i + 1..], known));
  }

  /** The files whose deletion succeeded. */
  function Deleted(attempted: seq<string>, undeletable: set<string>): set<string> {
    if attempted == [] then {}
    else
      var last := attempted[|attempted| - 1];
      Deleted(attempted[..|attempted| - 1], undeletable) + (if last !in undeletable then {last} else {})
  }

  lemma {:induction false} DeletedMembers(attempted: seq<string>, undeletable: set<string>, t: string)
    ensures t in Deleted(attempted, undeletable) <==> t in attempted && t !in undeletable
  {
    if attempted != [] {
      var init := attempted[..|attempted| - 1];
      DeletedMembers(init, undeletable, t);
      assert attempted == init + [attempted[|attempted| - 1]];
    }
  }

  /** Deleting one more file, seen from the directory. */
  lemma DeletedStep(before: set<string>, attempted: seq<string>, t: string, undeletable: set<string>)
    ensures before - Deleted(attempted + [t], undeletable)
      == (before - Deleted(attempted, undeletable)) - (if t !in undeletable then {t} else {})
  {
    assert (attempted + [t])[..|attempted|] == attempted;
  }

  /** After the scan every kept token still has its file. */
  lemma KeptHaveFiles(start: seq<string>, known: seq<string>, before: set<string>, undeletable: set<string>)
    requires forall t :: t in start ==> t in before
    ensures forall t :: t in Keep(start, known) ==> t in before - Deleted(Drop(start, known), undeletable)
  {
    forall t | t in Keep(start, known) ensures t in before - Deleted(Drop(start, known), undeletable) {
      KeepMembers(start, known, t);
      DropMembers(start, known, t);
      DeletedMembers(Drop(start, known), undeletable, t);
    }
  }

  /** `s` with its first occurrence of `t` erased. */
  function EraseFirst(s: seq<string>, t: string): (r: seq<string>)
    requires t in s
    ensures |r| == |s| - 1
  {
    if s[0] == t then s[1..] else [s[0]] + EraseFirst(s[1..], t)
  }

  lemma {:induction false} EraseFirstNoDuplicates(s: seq<string>, t: string)
    requires t in s && NoDuplicates(s)
    ensures NoDuplicates(EraseFirst(s, t))
    ensures forall x :: x in EraseFirst(s, t) <==> x in s && x != t
  {
    if s[0] != t {
      EraseFirstNoDuplicates(s[1..], t);
      forall x | x in s[1..] ensures x != s[0] {
        var k :| 0 <= k < |s[1..]| && s[1..][k] == x;
        assert s[k + 1] == x;
      }
      AppendNoDuplicates([s[0]], EraseFirst(s[1..], t));
    } else {
      forall x | x in s[1..] ensures x != t {
        var k :| 0 <= k < |s[1..]| && s[1..][k] == x;
        assert s[k + 1] == x;
      }
    }
  }

  class TokenFileRepository {
    /** `tokens_`: the marker names the repository knows of. */
    var tokens: seq<string>
    /** The zero-length files actually in the directory. */
    var files: set<string>

    /** The list has no duplicates, and every listed token has its file. */
    ghost predicate Valid()
      reads this
    {
      NoDuplicates(tokens) && forall t :: t in tokens ==> t in files
    }

    /**
     * Scan the directory. When it neither exists nor can be created the list
     * stays empty; otherwise it holds the zero-length regular files.
     */
    constructor (dirUsable: bool, entries: seq<DirEntry>)
      requires DistinctNames(entries)
      ensures Valid()
      ensures files == set t | t in ZeroLengthFiles(entries)
      ensures tokens == if dirUsable then ZeroLengthFiles(entries) else []
    {
      files := set t | t in ZeroLengthFiles(entries);
      if dirUsable {
        tokens := ZeroLengthFiles(entries);
        ZeroLengthFilesDistinct(entries);
      } else {
        tokens := [];
      }
    }

    /** `tokenExists` */
    function TokenExists(token: string): bool
      reads this
    {
      token in tokens
    }

    /**
     * Create the marker unless it is already listed; the list grows only when
     * the write succeeds. An empty token names the directory itself, which
     * cannot be opened as a file, so writing it fails.
     */
    method EnsureToken(token: string, writeOk: bool)
      requires Valid()
      modifies this
      ensures Valid()
      ensures old(TokenExists(token)) ==> tokens == old(tokens) && files == old(files)
      ensures !old(TokenExists(token)) && writeOk && token != "" ==>
        tokens == old(tokens) + [token] && files == old(files) + {token}
      ensures !old(TokenExists(token)) && !(writeOk && token != "") ==> tokens == old(tokens) && files == old(files)
    {
      if token !in tokens {
        if writeOk && token != "" {
          files := files + {token};
          tokens := tokens + [token];
        }
      }
    }

    /** Delete the marker; the list shrinks only when the deletion succeeds. */
    method RemoveToken(token: string, deleteOk: bool)
      requires Valid()
      modifies this
      ensures Valid()
      ensures old(TokenExists(token)) && deleteOk ==>
        tokens == EraseFirst(old(tokens), token) && !TokenExists(token) && files == old(files) - {token}
      ensures !(old(TokenExists(token)) && deleteOk) ==> tokens == old(tokens) && files == old(files)
    {
      if token in tokens {
        if deleteOk {
          EraseFirstNoDuplicates(tokens, token);
          tokens := EraseFirst(tokens, token);
          files := files - {token};
        }
      }
    }

    /**
     * Drop every token `known` does not hold, erasing while iterating. The
     * list loses the token whether or not its file could be deleted; the
     * result lists the deletions attempted, in order.
     */
    method RemoveUnknownTokens(known: seq<string>, undeletable: set<string>) returns (attempted: seq<string>)
      requires Valid()
      modifies this
      ensures Valid()
      ensures tokens == Keep(old(tokens), known)
      ensures attempted == Drop(old(tokens), known)
      ensures files == old(files) - Deleted(attempted, undeletable)
    {
      ghost var start := tokens;
      var ts := tokens;
      var fs := files;
      var i := 0;
      attempted := [];
      assert ts[..0] == [] && ts[0..] == ts;
      while i < |ts|
        invariant 0 <= i <= |ts|
        invariant ts[..i] + Keep(ts[i..], known) == Keep(start, known)
        invariant attempted + Drop(ts[i..], known) == Drop(start, known)
        invariant fs == old(files) - Deleted(attempted, undeletable)
        decreases |ts| - i
      {
        if ts[i] in known {
          ScanKeeps(ts, i, known);
          i := i + 1;
        } else {
          var t := ts[i];
          ScanErases(ts, i, known, attempted);
          DeletedStep(old(files), attempted, t, undeletable);
          if t !in undeletable {
            fs := fs - {t};
          } else {
            assert fs - {} == fs;
          }
          attempted := attempted + [t];
          ts := ts[..i] + ts[i + 1..];
        }
      }
      assert ts[i..] == [] && ts[..i] == ts;
      assert ts == Keep(start, known) && attempted == Drop(start, known) by {
        assert ts + [] == ts;
        assert attempted + [] == attempted;
      }
      assert NoDuplicates(ts) && forall t :: t in ts ==> t in fs by {
        KeepNoDuplicates(start, known);
        KeptHaveFiles(start, known, old(files), undeletable);
      }
      tokens, files := ts, fs;
    }
  }
}
