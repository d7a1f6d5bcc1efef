/**
 * The connection records of the VPN model and what `updateConnection` does
 * to them: the merge of an update into a record, the best state over all
 * records, and the move that keeps the list sorted by name.
 */
module ConnectionList {
  import opened QStrings
  import opened Variants
  import opened PropertyTranslator

  /**
   * A `VpnConnection` object: `id` stands for its identity (the object
   * address), `path` for its D-Bus object path, `props` for its QML
   * properties.
   */
  datatype Connection = Connection(id: nat, path: string, props: PropertyMap)

  /**
   * The properties a new `VpnConnection` reads as: disconnected, of type
   * OpenVPN, with an empty name and both flags off.
   */
  const DefaultProperties: PropertyMap := map[
    "name" := VString(""), "state" := VInt(Disconnect), "type" := VInt(OpenVPN),
    "automaticUpDown" := VBool(false), "storeCredentials" := VBool(false)]

  /** A new `VpnConnection`: its properties hold their defaults. */
  function InitialConnection(id: nat, path: string): (c: Connection)
    ensures c.id == id && c.path == path && StateOf(c) == Disconnect && Name(c) == ""
    ensures !BoolValue(c.props, "automaticUpDown") && !BoolValue(c.props, "storeCredentials")
  {
    Connection(id, path, DefaultProperties)
  }

  /** `VpnConnection::name` */
  function Name(c: Connection): string {
    StringValue(c.props, "name")
  }

  /** `VpnConnection::state`; a state that is not an integer reads as Disconnect. */
  function StateOf(c: Connection): int {
    if "state" in c.props && c.props["state"].VInt? then c.props["state"].i else Disconnect
  }

  /** `VpnConnection::providerProperties` */
  function ProviderProperties(c: Connection): PropertyMap {
    if ProviderPropertiesKey in c.props then AsMap(c.props[ProviderPropertiesKey]) else map[]
  }

  // ---------------------------------------------------------------- merge

  /**
   * The update `updateConnection` applies: provider properties merged into
   * the record's existing ones key by key, and a `domain` equal to the
   * default domain dropped.
   */
  function PrepareUpdate(c: Connection, update: PropertyMap): PropertyMap {
    var merged := if ProviderPropertiesKey in update
      then update[ProviderPropertiesKey := VMap(ProviderProperties(c) + AsMap(update[ProviderPropertiesKey]))]
      else update;
    if "domain" in merged && ToStr(merged["domain"]) == DefaultDomain then merged - {"domain"} else merged
  }

  /** `updateItem`: the record with the update's properties written over its own. */
  function Apply(c: Connection, properties: PropertyMap): Connection {
    c.(props := c.props + properties)
  }

  /**
   * Provider properties that the update does not mention keep their values;
   * those it mentions take the update's values; the sentinel domain is
   * never written and every other key of the update is.
   */
  lemma PrepareUpdateSpec(c: Connection, update: PropertyMap)
    ensures var p := PrepareUpdate(c, update);
      && (ProviderPropertiesKey in update ==>
            ProviderPropertiesKey in p && p[ProviderPropertiesKey].VMap?
            && (forall k :: k in ProviderProperties(c) && k !in AsMap(update[ProviderPropertiesKey]) ==>
                  k in p[ProviderPropertiesKey].m && p[ProviderPropertiesKey].m[k] == ProviderProperties(c)[k])
            && (forall k :: k in AsMap(update[ProviderPropertiesKey]) ==>
                  k in p[ProviderPropertiesKey].m && p[ProviderPropertiesKey].m[k] == AsMap(update[ProviderPropertiesKey])[k]))
      && ("domain" in p ==> ToStr(p["domain"]) != DefaultDomain)
      && (forall k :: k in update && k != ProviderPropertiesKey && k != "domain" ==> k in p && p[k] == update[k])
      && (forall k :: k in p ==> k in update)
      && ("domain" in update && ToStr(update["domain"]) != DefaultDomain ==> "domain" in p && p["domain"] == update["domain"])
  {
  }

  // ----------------------------------------------------------- best state

  /** The best state: the record state of highest rank, starting from Idle, the first of equal rank winning. */
  function BestStateOf(items: seq<Connection>): (r: int)
    ensures r != Disconnect
    ensures r == Idle || NumericValue(r) > 0
  {
    if items == [] then Idle
    else
      var best, s := BestStateOf(items[..|items| - 1]), StateOf(items[|items| - 1]);
      if NumericValue(s) > NumericValue(best) then s else best
  }

  /** No record outranks the best state, which is Idle or the state of some record. */
  lemma {:induction false} BestStateIsMaximal(items: seq<Connection>)
    ensures forall j :: 0 <= j < |items| ==> NumericValue(StateOf(items[j])) <= NumericValue(BestStateOf(items))
    ensures BestStateOf(items) == Idle || exists j :: 0 <= j < |items| && StateOf(items[j]) == BestStateOf(items)
  {
    if items != [] {
      var init := items[..|items| - 1];
      BestStateIsMaximal(init);
      forall j | 0 <= j < |items| - 1
        ensures NumericValue(StateOf(items[j])) <= NumericValue(BestStateOf(items))
      {
        assert items[j] == init[j];
      }
      if BestStateOf(items) != Idle && BestStateOf(items) == BestStateOf(init) {
        var j :| 0 <= j < |init| && StateOf(init[j]) == BestStateOf(init);
        assert items[j] == init[j];
      }
    }
  }

  // -------------------------------------------------------------- sorting

  /** Records in non-decreasing name order. */
  predicate Sorted(s: seq<Connection>) {
    forall j, k :: 0 <= j < k < |s| ==> !Less(Name(s[k]), Name(s[j]))
  }

  /** Index of the first record whose name is greater than `n`, or the length when there is none. */
  function InsertionIndex(s: seq<Connection>, n: string): (r: nat)
    ensures r <= |s|
    ensures forall j :: 0 <= j < r ==> !Less(n, Name(s[j]))
    ensures r < |s| ==> Less(n, Name(s[r]))
  {
    if s == [] then 0
    else if Less(n, Name(s[0])) then 0
    else 1 + InsertionIndex(s[1..], n)
  }

  lemma InsertionIndexUnique(s: seq<Connection>, n: string, k: nat)
    requires k <= |s|
    requires forall j :: 0 <= j < k ==> !Less(n, Name(s[j]))
    requires k < |s| ==> Less(n, Name(s[k]))
    ensures InsertionIndex(s, n) == k
  {
  }

  function Remove(s: seq<Connection>, i: nat): (r: seq<Connection>)
    requires i < |s|
    ensures |r| == |s| - 1
    ensures forall j :: 0 <= j < i ==> r[j] == s[j]
    ensures forall j :: i <= j < |r| ==> r[j] == s[j + 1]
  {
    s[..i] + s[i + 1..]
  }

  function Insert(s: seq<Connection>, k: nat, x: Connection): (r: seq<Connection>)
    requires k <= |s|
    ensures |r| == |s| + 1
    ensures r[k] == x
    ensures forall j :: 0 <= j < k ==> r[j] == s[j]
    ensures forall j :: k < j < |r| ==> r[j] == s[j - 1]
  {
    s[..k] + [x] + s[k..]
  }

  /** `moveItem(from, to)`: the record at `from` ends up at index `to`. */
  function Move(s: seq<Connection>, from: nat, to: nat): (r: seq<Connection>)
    requires from < |s| && to < |s|
  {
    Insert(Remove(s, from), to, s[from])
  }

  /** The index the updated record at `i` moves to. */
  function NewIndex(s: seq<Connection>, i: nat): nat
    requires i < |s|
  {
    var idx := InsertionIndex(s, Name(s[i]));
    if |s| <= 1 || idx == i || idx == i + 1 then i
    else if i < idx then idx - 1 else idx
  }

  /** The scan-and-move at the end of `updateConnection` for the record at `i`. */
  function Reposition(s: seq<Connection>, i: nat): (r: seq<Connection>)
    requires i < |s|
  {
    var idx := InsertionIndex(s, Name(s[i]));
    if |s| <= 1 || idx == i || idx == i + 1 then s
    else Move(s, i, if i < idx then idx - 1 else idx)
  }

  /**
   * Moving the record is the same as inserting it into the other records
   * before the first one whose name is greater than its own.
   */
  lemma RepositionIsInsertion(s: seq<Connection>, i: nat)
    requires i < |s|
    ensures var others, n := Remove(s, i), Name(s[i]);
      && NewIndex(s, i) == InsertionIndex(others, n)
      && Reposition(s, i) == Insert(others, InsertionIndex(others, n), s[i])
  {
    NewIndexIsInsertion(s, i);
    if InsertionIndex(s, Name(s[i])) == i + 1 {
      InsertRemoved(s, i);
    }
  }

  /** The index the scan picks, corrected for the removal, is the insertion index among the others. */
  lemma NewIndexIsInsertion(s: seq<Connection>, i: nat)
    requires i < |s|
    ensures NewIndex(s, i) == InsertionIndex(Remove(s, i), Name(s[i]))
  {
    var others, n := Remove(s, i), Name(s[i]);
    var idx := InsertionIndex(s, n);
    assert idx != i by {
      LexIrreflexive(Utf16(n));
    }
    var p := if i < idx then idx - 1 else idx;
    forall j | 0 <= j < p ensures !Less(n, Name(others[j])) {
      if j < i {
        assert others[j] == s[j];
      } else {
        assert others[j] == s[j + 1];
      }
    }
    if p < |others| {
      if i < idx {
        assert others[idx - 1] == s[idx];
      } else {
        assert others[idx] == s[idx];
      }
    }
    InsertionIndexUnique(others, n, p);
  }

  /** Putting a removed record back where it was gives the list back. */
  lemma InsertRemoved(s: seq<Connection>, i: nat)
    requires i < |s|
    ensures Insert(Remove(s, i), i, s[i]) == s
  {
    var others := Remove(s, i);
    assert others[..i] == s[..i] && others[i..] == s[i + 1..];
    assert s == s[..i] + [s[i]] + s[i + 1..];
  }

  /** Inserting at the insertion index keeps a sorted list sorted, with the new record after every equal name. */
  lemma InsertSorted(others: seq<Connection>, x: Connection)
    requires Sorted(others)
    ensures var p := InsertionIndex(others, Name(x)); var r := Insert(others, p, x);
      && Sorted(r)
      && (forall j :: 0 <= j < p ==> !Less(Name(x), Name(r[j])))
      && (forall j :: p < j < |r| ==> Less(Name(x), Name(r[j])))
  {
    var n := Name(x);
    var p := InsertionIndex(others, n);
    var r := Insert(others, p, x);
    LessIsStrictTotalOrder();
    forall j | p < j < |r| ensures Less(n, Name(r[j])) {
      assert r[j] == others[j - 1];
      if j - 1 > p {
        assert !Less(Name(others[j - 1]), Name(others[p]));
      }
    }
    forall j, k | 0 <= j < k < |r| ensures !Less(Name(r[k]), Name(r[j])) {
      if k < p || j > p {
      } else if k == p {
      } else if j == p {
      } else {
        assert r[j] == others[j] && r[k] == others[k - 1];
      }
    }
  }

  /**
   * After an update, if the other records were in name order, the whole
   * list is: the others keep their order and the updated record sits after
   * every record with an equal name and before every greater one.
   */
  lemma RepositionSorted(s: seq<Connection>, i: nat)
    requires i < |s| && Sorted(Remove(s, i))
    ensures var r, p := Reposition(s, i), NewIndex(s, i);
      && |r| == |s| && p < |r| && r[p] == s[i]
      && Sorted(r)
      && Remove(r, p) == Remove(s, i)
      && (forall j :: 0 <= j < p ==> !Less(Name(s[i]), Name(r[j])))
      && (forall j :: p < j < |r| ==> Less(Name(s[i]), Name(r[j])))
  {
    var others := Remove(s, i);
    RepositionIsInsertion(s, i);
    InsertSorted(others, s[i]);
    var p := InsertionIndex(others, Name(s[i]));
    var r := Insert(others, p, s[i]);
    assert Remove(r, p) == others;
  }

  /** Putting an element back at another place among the same others only reorders. */
  lemma ReinsertPermutes<T>(a: seq<T>, b: seq<T>, c: seq<T>, d: seq<T>, x: T)
    requires a + b == c + d
    ensures multiset(a + [x] + b) == multiset(c + [x] + d)
  {
    calc {
      multiset(a + [x] + b);
      multiset(a) + multiset{x} + multiset(b);
      multiset(a + b) + multiset{x};
      multiset(c + d) + multiset{x};
      multiset(c) + multiset{x} + multiset(d);
      multiset(c + [x] + d);
    }
  }

  lemma ReinsertAt<T>(a: seq<T>, b: seq<T>, c: seq<T>, p: nat, x: T)
    requires a + b == c && p <= |c|
    ensures multiset(a + [x] + b) == multiset(c[..p] + [x] + c[p..])
  {
    assert c[..p] + c[p..] == c;
    ReinsertPermutes(a, b, c[..p], c[p..], x);
  }

  /** Taking a record out and putting it back anywhere only reorders the records. */
  lemma InsertAfterRemove(s: seq<Connection>, i: nat, p: nat)
    requires i < |s| && p < |s|
    ensures multiset(Insert(Remove(s, i), p, s[i])) == multiset(s)
  {
    var others := Remove(s, i);
    assert s == s[..i] + [s[i]] + s[i + 1..];
    assert others[..p] + others[p..] == s[..i] + s[i + 1..];
    ReinsertPermutes(s[..i], s[i + 1..], others[..p], others[p..], s[i]);
  }

  /** Repositioning only reorders the records. */
  lemma RepositionPermutes(s: seq<Connection>, i: nat)
    requires i < |s|
    ensures multiset(Reposition(s, i)) == multiset(s)
  {
    RepositionIsInsertion(s, i);
    InsertAfterRemove(s, i, InsertionIndex(Remove(s, i), Name(s[i])));
  }

  // ------------------------------------------------------------ paths

  /** The object paths of the records, in list order. */
  function Paths(s: seq<Connection>): (r: seq<string>)
    ensures |r| == |s|
    ensures forall j :: 0 <= j < |s| ==> r[j] == s[j].path
  {
    seq(|s|, j requires 0 <= j < |s| => s[j].path)
  }

  /** Repositioning keeps the records' paths, counted with repetitions. */
  lemma RepositionKeepsPaths(s: seq<Connection>, i: nat)
    requires i < |s|
    ensures multiset(Paths(Reposition(s, i))) == multiset(Paths(s))
  {
    var others := Remove(s, i);
    var p := InsertionIndex(others, Name(s[i]));
    RepositionIsInsertion(s, i);
    var ps, po := Paths(s), Paths(others);
    PathsOfInsert(others, p, s[i]);
    PathsOfRemove(s, i);
    ReinsertAt(ps[..i], ps[i + 1..], po, p, s[i].path);
  }

  lemma PathsOfInsert(s: seq<Connection>, p: nat, x: Connection)
    requires p <= |s|
    ensures Paths(Insert(s, p, x)) == Paths(s)[..p] + [x.path] + Paths(s)[p..]
  {
  }

  lemma PathsOfRemove(s: seq<Connection>, i: nat)
    requires i < |s|
    ensures Paths(Remove(s, i)) == Paths(s)[..i] + Paths(s)[i + 1..]
    ensures Paths(s) == Paths(s)[..i] + [s[i].path] + Paths(s)[i + 1..]
  {
  }

  // ----------------------------------------------------------- one update

  /** The record after `updateItem` with the prepared update; its identity and path stay. */
  function Merged(c: Connection, update: PropertyMap): (r: Connection)
    ensures r.id == c.id && r.path == c.path
  {
    Apply(c, PrepareUpdate(c, update))
  }

  /**
   * The list after `updateConnection` on the record at `i`: unchanged when
   * the update changes nothing, otherwise the merged record repositioned.
   */
  function UpdateItems(s: seq<Connection>, i: nat, update: PropertyMap): seq<Connection>
    requires i < |s|
  {
    var m := Merged(s[i], update);
    if m == s[i] then s else Reposition(s[i := m], i)
  }

  /** The best state after `updateConnection`: recomputed only when the record's state changed. */
  function UpdateBest(s: seq<Connection>, i: nat, update: PropertyMap, best: int): int
    requires i < |s|
  {
    var m := Merged(s[i], update);
    if m != s[i] && StateOf(m) != StateOf(s[i]) then BestStateOf(s[i := m]) else best
  }

  /** The states the records are in. */
  function StatesOf(s: seq<Connection>): (r: set<int>)
    ensures forall j :: 0 <= j < |s| ==> StateOf(s[j]) in r
    ensures forall x :: x in r ==> exists j :: 0 <= j < |s| && StateOf(s[j]) == x
  {
    set j | 0 <= j < |s| :: StateOf(s[j])
  }

  /** The best state depends only on which states occur, not on their order or count. */
  lemma BestStateByStates(s: seq<Connection>, t: seq<Connection>)
    requires StatesOf(s) == StatesOf(t)
    ensures BestStateOf(s) == BestStateOf(t)
  {
    BestStateIsMaximal(s);
    BestStateIsMaximal(t);
    var a, b := BestStateOf(s), BestStateOf(t);
    if b != Idle {
      var j :| 0 <= j < |t| && StateOf(t[j]) == b;
      assert b in StatesOf(s);
    }
    if a != Idle {
      var j :| 0 <= j < |s| && StateOf(s[j]) == a;
      assert a in StatesOf(t);
    }
  }

  /** Records with the same states, up to order, give the same best state. */
  lemma SameRecordsSameStates(s: seq<Connection>, t: seq<Connection>)
    requires multiset(s) == multiset(t)
    ensures StatesOf(s) == StatesOf(t)
  {
    forall x | x in StatesOf(s) ensures x in StatesOf(t) {
      var j :| 0 <= j < |s| && StateOf(s[j]) == x;
      assert s[j] in multiset(t);
      var k :| 0 <= k < |t| && t[k] == s[j];
    }
    forall x | x in StatesOf(t) ensures x in StatesOf(s) {
      var j :| 0 <= j < |t| && StateOf(t[j]) == x;
      assert t[j] in multiset(s);
      var k :| 0 <= k < |s| && s[k] == t[j];
    }
  }

  /** Replacing a record by one in the same state keeps the set of states. */
  lemma SameStateSameStates(s: seq<Connection>, i: nat, c: Connection)
    requires i < |s| && StateOf(c) == StateOf(s[i])
    ensures StatesOf(s[i := c]) == StatesOf(s)
  {
    var t := s[i := c];
    forall x | x in StatesOf(t) ensures x in StatesOf(s) {
      var j :| 0 <= j < |t| && StateOf(t[j]) == x;
      assert StateOf(s[j]) == x;
    }
    forall x | x in StatesOf(s) ensures x in StatesOf(t) {
      var j :| 0 <= j < |s| && StateOf(s[j]) == x;
      assert StateOf(t[j]) == x;
    }
  }

  /**
   * Only the updated record changes: the others stay, in some order, and
   * the merged record takes the old one's place.
   */
  lemma UpdatePermutes(s: seq<Connection>, i: nat, update: PropertyMap)
    requires i < |s|
    ensures multiset(UpdateItems(s, i, update)) == multiset(s[i := Merged(s[i], update)])
    ensures multiset(Paths(UpdateItems(s, i, update))) == multiset(Paths(s))
  {
    var m := Merged(s[i], update);
    if m == s[i] {
      assert s[i := m] == s;
    } else {
      var t := s[i := m];
      assert UpdateItems(s, i, update) == Reposition(t, i);
      RepositionPermutes(t, i);
      RepositionKeepsPaths(t, i);
      SamePathSamePaths(s, i, m);
    }
  }

  lemma SamePathSamePaths(s: seq<Connection>, i: nat, c: Connection)
    requires i < |s| && c.path == s[i].path
    ensures Paths(s[i := c]) == Paths(s)
  {
  }

  /** A best state that was correct before an update is correct after it. */
  lemma UpdateKeepsBestState(s: seq<Connection>, i: nat, update: PropertyMap, best: int)
    requires i < |s| && best == BestStateOf(s)
    ensures UpdateBest(s, i, update, best) == BestStateOf(UpdateItems(s, i, update))
  {
    var m := Merged(s[i], update);
    if m != s[i] {
      var t := s[i := m];
      RepositionPermutes(t, i);
      SameRecordsSameStates(t, Reposition(t, i));
      BestStateByStates(t, Reposition(t, i));
      if StateOf(m) == StateOf(s[i]) {
        SameStateSameStates(s, i, m);
        BestStateByStates(s, t);
      }
    }
  }

  /** Taking a record out of a sorted list leaves it sorted. */
  lemma SortedRemove(s: seq<Connection>, i: nat)
    requires i < |s| && Sorted(s)
    ensures Sorted(Remove(s, i))
  {
    var r := Remove(s, i);
    forall j, k | 0 <= j < k < |r| ensures !Less(Name(r[k]), Name(r[j])) {
      var j', k' := if j < i then j else j + 1, if k < i then k else k + 1;
      assert r[j] == s[j'] && r[k] == s[k'];
    }
  }

  /** An update keeps a sorted list sorted. */
  lemma UpdateKeepsSorted(s: seq<Connection>, i: nat, update: PropertyMap)
    requires i < |s| && Sorted(s)
    ensures Sorted(UpdateItems(s, i, update))
  {
    var m := Merged(s[i], update);
    if m != s[i] {
      var t := s[i := m];
      SortedRemove(s, i);
      assert Remove(t, i) == Remove(s, i);
      RepositionSorted(t, i);
    }
  }

  /** Replacing a record by one with the same name keeps a sorted list sorted. */
  lemma SameNameKeepsSorted(s: seq<Connection>, i: nat, c: Connection)
    requires i < |s| && Sorted(s) && Name(c) == Name(s[i])
    ensures Sorted(s[i := c])
  {
    var t := s[i := c];
    forall j, k | 0 <= j < k < |t| ensures !Less(Name(t[k]), Name(t[j])) {
      assert Name(t[j]) == Name(s[j]) && Name(t[k]) == Name(s[k]);
    }
  }

  /** A new record in the Disconnect state does not change the best state. */
  lemma AppendDisconnected(s: seq<Connection>, c: Connection)
    requires StateOf(c) == Disconnect
    ensures BestStateOf(s + [c]) == BestStateOf(s)
  {
    assert (s + [c])[..|s|] == s;
  }

  /**
   * A new record appended to a sorted list and then updated with properties
   * that change it ends up sorted.
   */
  lemma AppendThenUpdateSorted(s: seq<Connection>, c: Connection, update: PropertyMap)
    requires Sorted(s)
    requires Merged(c, update) != c
    ensures Sorted(UpdateItems(s + [c], |s|, update))
  {
    var t := (s + [c])[|s| := Merged(c, update)];
    assert Remove(t, |s|) == s;
    RepositionSorted(t, |s|);
  }

  // ---------------------------------------------------------- look-ups

  /** `connection(path)`: the index of the first record with `path`. */
  function IndexOfPath(s: seq<Connection>, path: string): (r: Option<nat>)
    ensures r.Some? ==> r.value < |s| && s[r.value].path == path
    ensures r.Some? ==> forall j :: 0 <= j < r.value ==> s[j].path != path
    ensures r.None? <==> path !in Paths(s)
  {
    if s == [] then None
    else if s[0].path == path then Some(0)
    else
      var r := IndexOfPath(s[1..], path);
      assert Paths(s) == [s[0].path] + Paths(s[1..]);
      if r.None? then None else Some(r.value + 1)
  }

  /** The record a captured `VpnConnection` object refers to, if it is still listed. */
  function IndexOfId(s: seq<Connection>, id: nat): (r: Option<nat>)
    ensures r.Some? ==> r.value < |s| && s[r.value].id == id
    ensures r.None? ==> forall j :: 0 <= j < |s| ==> s[j].id != id
  {
    if s == [] then None
    else if s[0].id == id then Some(0)
    else
      var r := IndexOfId(s[1..], id);
      if r.None? then None else Some(r.value + 1)
  }

  /** A boolean property of a record (`setAutomaticUpDown`, `setStoreCredentials`). */
  function SetFlag(c: Connection, key: string, b: bool): (r: Connection)
    requires key != "name" && key != "state"
    ensures r.id == c.id && r.path == c.path && Name(r) == Name(c) && StateOf(r) == StateOf(c)
    ensures BoolValue(r.props, key) == b
  {
    c.(props := c.props[key := VBool(b)])
  }

  /** A flag set on a record keeps the list's order and its best state. */
  lemma SetFlagKeeps(s: seq<Connection>, i: nat, key: string, b: bool)
    requires i < |s| && key != "name" && key != "state"
    ensures Sorted(s) ==> Sorted(s[i := SetFlag(s[i], key, b)])
    ensures BestStateOf(s[i := SetFlag(s[i], key, b)]) == BestStateOf(s)
  {
    var c := SetFlag(s[i], key, b);
    if Sorted(s) {
      SameNameKeepsSorted(s, i, c);
    }
    SameStateSameStates(s, i, c);
    BestStateByStates(s[i := c], s);
  }

  /**
   * The record at `i` with its `storeCredentials` flag brought in line with
   * `enabled`, written only when it differs.
   */
  function Synced(s: seq<Connection>, i: nat, enabled: bool): (r: seq<Connection>)
    requires i < |s|
    ensures |r| == |s| && BoolValue(r[i].props, "storeCredentials") == enabled
    ensures forall j :: 0 <= j < |s| && j != i ==> r[j] == s[j]
    ensures BoolValue(s[i].props, "storeCredentials") == enabled ==> r == s
  {
    if BoolValue(s[i].props, "storeCredentials") == enabled then s
    else s[i := SetFlag(s[i], "storeCredentials", enabled)]
  }

  /** Syncing the flag keeps the list's order and its best state. */
  lemma SyncedKeeps(s: seq<Connection>, i: nat, enabled: bool)
    requires i < |s|
    ensures Sorted(s) ==> Sorted(Synced(s, i, enabled))
    ensures BestStateOf(Synced(s, i, enabled)) == BestStateOf(s)
  {
    if BoolValue(s[i].props, "storeCredentials") != enabled {
      SetFlagKeeps(s, i, "storeCredentials", enabled);
    }
  }

  /** An update that changes a new record: its prepared properties move some property off its default. */
  predicate ChangesNewRecord(update: PropertyMap) {
    var p := PrepareUpdate(InitialConnection(0, ""), update);
    exists key :: key in p && (key !in DefaultProperties || p[key] != DefaultProperties[key])
  }

  /** Whether an update changes a new record does not depend on the record's identity or path. */
  lemma NewRecordChange(id: nat, path: string, update: PropertyMap)
    ensures Merged(InitialConnection(id, path), update) != InitialConnection(id, path) <==> ChangesNewRecord(update)
  {
    var c := InitialConnection(id, path);
    var p := PrepareUpdate(c, update);
    assert p == PrepareUpdate(InitialConnection(0, ""), update);
    if ChangesNewRecord(update) {
      var key :| key in p && (key !in DefaultProperties || p[key] != DefaultProperties[key]);
      assert (DefaultProperties + p)[key] == p[key];
      assert Merged(c, update).props != c.props;
    } else {
      assert DefaultProperties + p == DefaultProperties;
    }
  }

  /**
   * An update that writes only defaults leaves a new record where it was
   * appended, whatever its name; so `updateConnection` does not reposition
   * it, and a list in name order can end up out of order.
   */
  lemma DefaultsLeaveNewRecordLast()
    ensures var a := Connection(0, "/a", DefaultProperties["name" := VString("a")]);
      var update := map["automaticUpDown" := VBool(false), "storeCredentials" := VBool(false)];
      var t := UpdateItems([a] + [InitialConnection(1, "/b")], 1, update);
      Sorted([a]) && !ChangesNewRecord(update) && t == [a, InitialConnection(1, "/b")] && !Sorted(t)
  {
    var a := Connection(0, "/a", DefaultProperties["name" := VString("a")]);
    var b := InitialConnection(1, "/b");
    var update := map["automaticUpDown" := VBool(false), "storeCredentials" := VBool(false)];
    assert PrepareUpdate(b, update) == update;
    assert DefaultProperties + update == DefaultProperties;
    assert Merged(b, update) == b;
    NewRecordChange(1, "/b", update);
    assert !ChangesNewRecord(update);
    assert [a] + [b] == [a, b];
    assert UpdateItems([a] + [b], 1, update) == [a, b];
    assert Name(a) == "a" && Name(b) == "";
    assert Utf16("") == [] && Utf16("a") == [97];
    assert Less(Name([a, b][1]), Name([a, b][0]));
  }

  /** What an update keeps: name order, a correct best state, and the paths. */
  lemma UpdateFacts(s: seq<Connection>, i: nat, update: PropertyMap, best: int)
    requires i < |s|
    ensures Sorted(s) ==> Sorted(UpdateItems(s, i, update))
    ensures best == BestStateOf(s) ==> UpdateBest(s, i, update, best) == BestStateOf(UpdateItems(s, i, update))
    ensures multiset(Paths(UpdateItems(s, i, update))) == multiset(Paths(s))
  {
    if Sorted(s) {
      UpdateKeepsSorted(s, i, update);
    }
    if best == BestStateOf(s) {
      UpdateKeepsBestState(s, i, update, best);
    }
    UpdatePermutes(s, i, update);
  }

  /** A record appended to the list adds its path once. */
  lemma AppendPath(s: seq<Connection>, c: Connection)
    ensures multiset(Paths(s + [c])) == multiset(Paths(s)) + multiset{c.path}
  {
    assert Paths(s + [c]) == Paths(s) + [c.path];
  }
}
