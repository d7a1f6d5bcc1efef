/**
 * Translation between the connection properties the VPN daemon exchanges
 * over D-Bus (capitalised keys, enumeration values as strings, provider
 * settings as dotted top-level keys) and the form the QML layer uses
 * (lower-case initials, enumeration values as integers, provider settings
 * grouped under `providerProperties`).
 */
module PropertyTranslator {
  import opened Text
  import opened QStrings
  import opened Variants
  import opened QMaps

  const DefaultDomain: string := "merproject.org"
  const ProviderPropertiesKey: string := "providerProperties"

  // VpnModel::ConnectionType, numbered in declaration order.
  const OpenVPN: int := 0
  const OpenConnect: int := 1
  const VPNC: int := 2
  const L2TP: int := 3
  const PPTP: int := 4

  // VpnModel::ConnectionState, numbered in declaration order.
  const Idle: int := 0
  const Failure: int := 1
  const Configuration: int := 2
  const Ready: int := 3
  const Disconnect: int := 4

  /** The keys, compared in lower case, whose values go through a table. */
  predicate HasTable(lowerKey: string) {
    lowerKey == "type" || lowerKey == "state"
  }

  /** The two-way table for a key: pairs of (D-Bus value, QML value). */
  function ConversionTable(lowerKey: string): (t: seq<(Value, Value)>)
    ensures !HasTable(lowerKey) <==> t == []
    ensures forall i :: 0 <= i < |t| ==> t[i].0.VString? && t[i].1 == VInt(i)
  {
    if lowerKey == "type" then
      [(VString("openvpn"), VInt(OpenVPN)), (VString("openconnect"), VInt(OpenConnect)),
       (VString("vpnc"), VInt(VPNC)), (VString("l2tp"), VInt(L2TP)), (VString("pptp"), VInt(PPTP))]
    else if lowerKey == "state" then
      [(VString("idle"), VInt(Idle)), (VString("failure"), VInt(Failure)),
       (VString("configuration"), VInt(Configuration)), (VString("ready"), VInt(Ready)),
       (VString("disconnect"), VInt(Disconnect))]
    else []
  }

  /** The column a lookup compares against: the QML column towards D-Bus, the D-Bus column towards QML. */
  function Column(pair: (Value, Value), toDBus: bool): Value {
    if toDBus then pair.1 else pair.0
  }

  /**
   * Qt 5's `QVariant::operator==` evaluating `value == entry` for a table
   * entry, which is a string or an int. A bool and an int compare as numbers
   * (the bool as 0 or 1); otherwise the entry is converted to the type of
   * `value` and compared there: an int becomes its decimal string, a string
   * becomes a bool (`toBool`) or a one-element string list. A string entry
   * compared with an int is converted to an int, which succeeds only for a
   * number; a conversion that fails compares unequal.
   */
  predicate EntryEquals(value: Value, entry: Value) {
    match entry
    case VInt(n) =>
      (match value
       case VInt(i) => i == n
       case VBool(b) => (if b then 1 else 0) == n
       case VString(s) => s == IntToString(n)
       case _ => false)
    case VString(t) =>
      (match value
       case VString(s) => s == t
       case VBool(b) => b == ToBool(entry)
       case VStrings(l) => l == [t]
       case VInt(i) => t == IntToString(i)
       case VMap(_) => false)
    case _ => value == entry
  }

  /** Index of the first pair whose searched column compares equal to `v`. */
  function FindPair(t: seq<(Value, Value)>, v: Value, toDBus: bool): (r: Option<nat>)
    ensures r.Some? ==> r.value < |t| && EntryEquals(v, Column(t[r.value], toDBus))
    ensures r.Some? ==> forall j :: 0 <= j < r.value ==> !EntryEquals(v, Column(t[j], toDBus))
    ensures r.None? ==> forall j :: 0 <= j < |t| ==> !EntryEquals(v, Column(t[j], toDBus))
  {
    if t == [] then None
    else if EntryEquals(v, Column(t[0], toDBus)) then Some(0)
    else match FindPair(t[1..], v, toDBus)
      case None => None
      case Some(i) => Some(i + 1)
  }

  /** The search of `convertValue` in one table: the partner of the first match, or `value` itself. */
  function Lookup(t: seq<(Value, Value)>, value: Value, toDBus: bool): Value {
    match FindPair(t, value, toDBus)
    case None => value
    case Some(i) => Column(t[i], !toDBus)
  }

  /** `convertValue`: the key (in lower case) selects the table, which is searched for `value`. */
  function ConvertValue(key: string, value: Value, toDBus: bool): Value {
    Lookup(ConversionTable(LowerAll(key)), value, toDBus)
  }

  /** The shape both tables have: distinct strings on the D-Bus side, the integers 0, 1, ... on the QML side. */
  predicate TableShape(t: seq<(Value, Value)>) {
    && (forall i :: 0 <= i < |t| ==> t[i].0.VString? && t[i].1 == VInt(i))
    && (forall i, j :: 0 <= i < j < |t| ==> t[i].0 != t[j].0)
  }

  /** Within one table, no value appears twice in a column. */
  lemma TableColumnsDistinct(lowerKey: string)
    ensures TableShape(ConversionTable(lowerKey))
    ensures var t := ConversionTable(lowerKey);
      forall i, j :: 0 <= i < j < |t| ==> t[i].0 != t[j].0 && t[i].1 != t[j].1
  {
  }

  /**
   * The first entry of the searched column that compares equal to the value
   * gives its partner; a value equal to no entry passes through unchanged.
   */
  lemma ConvertValueSpec(key: string, value: Value, toDBus: bool)
    ensures var t := ConversionTable(LowerAll(key));
      (forall i :: 0 <= i < |t| && EntryEquals(value, Column(t[i], toDBus))
          && (forall j :: 0 <= j < i ==> !EntryEquals(value, Column(t[j], toDBus)))
        ==> ConvertValue(key, value, toDBus) == Column(t[i], !toDBus))
      && ((forall i :: 0 <= i < |t| ==> !EntryEquals(value, Column(t[i], toDBus)))
        ==> ConvertValue(key, value, toDBus) == value)
  {
    var t := ConversionTable(LowerAll(key));
    match FindPair(t, value, toDBus)
    case None =>
    case Some(k) =>
      forall i | 0 <= i < |t| && EntryEquals(value, Column(t[i], toDBus))
          && (forall j :: 0 <= j < i ==> !EntryEquals(value, Column(t[j], toDBus)))
        ensures i == k
      {
      }
  }

  /**
   * The search compares like `QVariant` and not structurally: a decimal
   * string finds the state it numbers, `true` counts as 1 against the QML
   * column and equals every table string on the D-Bus side, and a
   * one-element string list finds its element.
   */
  lemma ConvertComparesLikeQVariant()
    ensures ConvertValue("state", VString("3"), true) == VString("ready")
    ensures ConvertValue("type", VBool(true), true) == VString("openconnect")
    ensures ConvertValue("State", VBool(true), false) == VInt(Idle)
    ensures ConvertValue("Type", VStrings(["vpnc"]), false) == VInt(VPNC)
  {
    DecimalStateNumber();
    TrueIsOpenConnect();
    TrueIsIdle();
    ListFindsElement();
  }

  lemma DecimalStateNumber()
    ensures ConvertValue("state", VString("3"), true) == VString("ready")
  {
    var t := ConversionTable("state");
    assert LowerAll("state") == "state";
    assert IntToString(0) == "0" && IntToString(1) == "1" && IntToString(2) == "2" && IntToString(3) == "3";
    assert FindPair(t, VString("3"), true) == Some(3);
  }

  lemma TrueIsOpenConnect()
    ensures ConvertValue("type", VBool(true), true) == VString("openconnect")
  {
    var t := ConversionTable("type");
    assert LowerAll("type") == "type";
    assert FindPair(t, VBool(true), true) == Some(1);
  }

  lemma TrueIsIdle()
    ensures ConvertValue("State", VBool(true), false) == VInt(Idle)
  {
    var t := ConversionTable("state");
    assert LowerAll("State") == "state";
    assert ToBool(t[0].0);
    assert FindPair(t, VBool(true), false) == Some(0);
  }

  lemma ListFindsElement()
    ensures ConvertValue("Type", VStrings(["vpnc"]), false) == VInt(VPNC)
  {
    var t := ConversionTable("type");
    assert LowerAll("Type") == "type";
    assert FindPair(t, VStrings(["vpnc"]), false) == Some(2);
  }

  /** In a table of that shape, each column's entries compare equal only to themselves. */
  lemma EntryEqualsWithinColumn(t: seq<(Value, Value)>, i: int, j: int, toDBus: bool)
    requires TableShape(t) && 0 <= i < |t| && 0 <= j < |t|
    ensures EntryEquals(Column(t[i], toDBus), Column(t[j], toDBus)) <==> i == j
  {
    if !toDBus && i != j {
      assert t[i].0 != t[j].0 by {
        if i < j {} else {}
      }
    }
  }

  /**
   * A value of one side comes back unchanged from the other side exactly
   * when it is itself an entry of the column its outbound search looks at,
   * or when it compares equal to no entry of the table.
   */
  predicate SurvivesIn(t: seq<(Value, Value)>, value: Value, toDBus: bool) {
    (exists i :: 0 <= i < |t| && Column(t[i], toDBus) == value)
    || forall i :: 0 <= i < |t| ==> !EntryEquals(value, t[i].0) && !EntryEquals(value, t[i].1)
  }

  /** `SurvivesIn` the table of a key, given in lower case. */
  predicate Survives(lowerKey: string, value: Value, toDBus: bool) {
    SurvivesIn(ConversionTable(lowerKey), value, toDBus)
  }

  /** A value found at entry `i` goes to the partner of entry `i`, which finds entry `i` on the way back. */
  lemma LookupFoundRoundTrip(t: seq<(Value, Value)>, value: Value, toDBus: bool, i: nat)
    requires TableShape(t) && FindPair(t, value, toDBus) == Some(i)
    ensures Lookup(t, Lookup(t, value, toDBus), !toDBus) == Column(t[i], toDBus)
  {
    var q := Column(t[i], !toDBus);
    forall j | 0 <= j < i ensures !EntryEquals(q, Column(t[j], !toDBus)) {
      EntryEqualsWithinColumn(t, i, j, !toDBus);
    }
    EntryEqualsWithinColumn(t, i, i, !toDBus);
    match FindPair(t, q, !toDBus)
    case None =>
    case Some(k) =>
      if k > i {
      } else if k < i {
      }
  }

  /** A value found at entry `i` comes back exactly when it is entry `i` itself. */
  lemma LookupFoundSurvives(t: seq<(Value, Value)>, value: Value, toDBus: bool, i: nat)
    requires TableShape(t) && FindPair(t, value, toDBus) == Some(i)
    ensures Lookup(t, Lookup(t, value, toDBus), !toDBus) == value <==> SurvivesIn(t, value, toDBus)
  {
    LookupFoundRoundTrip(t, value, toDBus, i);
    assert !forall j :: 0 <= j < |t| ==> !EntryEquals(value, t[j].0) && !EntryEquals(value, t[j].1) by {
      assert EntryEquals(value, Column(t[i], toDBus));
    }
    if Column(t[i], toDBus) != value {
      forall j | 0 <= j < |t| ensures Column(t[j], toDBus) != value {
        EntryEqualsWithinColumn(t, i, j, toDBus);
      }
    }
  }

  /** A value found nowhere on its own side comes back exactly when it is found nowhere on the other side either. */
  lemma LookupMissedSurvives(t: seq<(Value, Value)>, value: Value, toDBus: bool)
    requires TableShape(t) && FindPair(t, value, toDBus).None?
    ensures Lookup(t, Lookup(t, value, toDBus), !toDBus) == value <==> SurvivesIn(t, value, toDBus)
  {
    assert Lookup(t, value, toDBus) == value;
    if !SurvivesIn(t, value, toDBus) {
      var j :| 0 <= j < |t| && (EntryEquals(value, t[j].0) || EntryEquals(value, t[j].1));
      assert EntryEquals(value, Column(t[j], !toDBus));
      var k := FindPair(t, value, !toDBus).value;
      EntryEqualsWithinColumn(t, k, k, toDBus);
    }
  }

  /** Searching a table for a value and searching again from the other side gives the value back exactly when it `SurvivesIn` the table. */
  lemma LookupRoundTrip(t: seq<(Value, Value)>, value: Value, toDBus: bool)
    requires TableShape(t)
    ensures Lookup(t, Lookup(t, value, toDBus), !toDBus) == value <==> SurvivesIn(t, value, toDBus)
  {
    match FindPair(t, value, toDBus)
    case Some(i) => LookupFoundSurvives(t, value, toDBus, i);
    case None => LookupMissedSurvives(t, value, toDBus);
  }

  /** Converting a value to the other side and back gives it back exactly when it `Survives`. */
  lemma ConvertRoundTrip(key: string, value: Value, toDBus: bool)
    ensures ConvertValue(key, ConvertValue(key, value, toDBus), !toDBus) == value
      <==> Survives(LowerAll(key), value, toDBus)
  {
    TableColumnsDistinct(LowerAll(key));
    LookupRoundTrip(ConversionTable(LowerAll(key)), value, toDBus);
  }

  /** `numericValue`: the rank a state has when choosing the best state. */
  function NumericValue(state: int): (r: int)
    ensures 0 <= r <= 3
    ensures r == 3 <==> state == Ready
    ensures r == 2 <==> state == Configuration
    ensures r == 1 <==> state == Failure
  {
    if state == Ready then 3
    else if state == Configuration then 2
    else if state == Failure then 1
    else 0
  }

  // ---------------------------------------------------------------- to QML

  predicate Dotted(k: string) { '.' in k }

  /** The dotted keys of a D-Bus map, which go under `providerProperties`. */
  function ProviderPart(dbus: PropertyMap): (r: PropertyMap)
    ensures forall k :: k in r <==> k in dbus && Dotted(k)
  {
    map k | k in dbus && Dotted(k) :: dbus[k]
  }

  /** The loop of `propertiesToQml` over the keys without a dot, in key order. */
  function QmlTop(dbus: PropertyMap): (r: PropertyMap)
    decreases |dbus|
  {
    if dbus == map[] then map[]
    else
      var k := GreatestKey(dbus.Keys);
      var rest := QmlTop(dbus - {k});
      if Dotted(k) then rest
      else rest[LowerInitial(k) := ConvertValue(LowerInitial(k), dbus[k], false)]
  }

  /** `propertiesToQml` */
  function PropertiesToQml(dbus: PropertyMap): PropertyMap {
    var top := QmlTop(dbus);
    var pp := ProviderPart(dbus);
    if pp == map[] then top else top[ProviderPropertiesKey := VMap(pp)]
  }

  /** The D-Bus keys whose QML name is `x`. */
  function QmlSources(dbus: PropertyMap, x: string): set<string> {
    set k | k in dbus && !Dotted(k) && LowerInitial(k) == x
  }

  lemma QmlSourcesRemove(dbus: PropertyMap, k: string, x: string)
    requires k in dbus && k !in QmlSources(dbus, x)
    ensures QmlSources(dbus - {k}, x) == QmlSources(dbus, x)
  {
  }

  /** A QML key exists exactly when some undotted D-Bus key lower-cases to it. */
  lemma {:induction false} QmlTopKeys(dbus: PropertyMap, x: string)
    ensures x in QmlTop(dbus) <==> QmlSources(dbus, x) != {}
    decreases |dbus|
  {
    if dbus != map[] {
      var k := GreatestKey(dbus.Keys);
      QmlTopKeys(dbus - {k}, x);
      if k !in QmlSources(dbus, x) {
        QmlSourcesRemove(dbus, k, x);
      }
    }
  }

  /**
   * The value under a QML key is the converted value of the greatest D-Bus
   * key that lower-cases to it: the last one the loop visits.
   */
  lemma {:induction false} QmlTopValue(dbus: PropertyMap, x: string, w: string)
    requires IsGreatest(w, QmlSources(dbus, x))
    ensures x in QmlTop(dbus) && QmlTop(dbus)[x] == ConvertValue(x, dbus[w], false)
    decreases |dbus|
  {
    var k := GreatestKey(dbus.Keys);
    if k in QmlSources(dbus, x) {
      GreatestIsUnique(w, k, QmlSources(dbus, x), dbus.Keys);
    } else {
      QmlSourcesRemove(dbus, k, x);
      QmlTopValue(dbus - {k}, x, w);
    }
  }

  lemma NoDotAfterLowerInitial(k: string)
    requires !Dotted(k)
    ensures !Dotted(LowerInitial(k))
  {
    if k != [] {
      assert LowerInitial(k) == [ToAsciiLower(k[0])] + k[1..];
    }
  }

  /**
   * Key routing of `propertiesToQml`: no key of the result has a dot; the
   * dotted keys are all under `providerProperties`, which exists when there
   * was a dotted key (or a D-Bus key lower-casing to that name); every other
   * key comes from a D-Bus key with its initial lower-cased.
   */
  lemma PropertiesToQmlKeys(dbus: PropertyMap, x: string)
    ensures var r := PropertiesToQml(dbus);
      && (x in r ==> !Dotted(x))
      && (x in r && x != ProviderPropertiesKey ==> QmlSources(dbus, x) != {})
      && (x in r <==> (x == ProviderPropertiesKey && ProviderPart(dbus) != map[]) || QmlSources(dbus, x) != {})
      && (ProviderPart(dbus) != map[] ==> r[ProviderPropertiesKey] == VMap(ProviderPart(dbus)))
  {
    var top, pp := QmlTop(dbus), ProviderPart(dbus);
    assert ProviderPropertiesKey == "providerProperties" && !Dotted(ProviderPropertiesKey);
    QmlTopKeys(dbus, x);
    assert x in top ==> !Dotted(x) by {
      if QmlSources(dbus, x) != {} {
        var k :| k in QmlSources(dbus, x);
        NoDotAfterLowerInitial(k);
      }
    }
  }

  /** Every QML key other than `providerProperties` has a lower-case (or non-letter) initial. */
  lemma PropertiesToQmlInitials(dbus: PropertyMap, x: string)
    requires x in PropertiesToQml(dbus) && x != ProviderPropertiesKey && x != []
    ensures !IsAsciiUpper(x[0])
  {
    PropertiesToQmlKeys(dbus, x);
    var k :| k in QmlSources(dbus, x);
  }

  // --------------------------------------------------------------- to D-Bus

  /** `propertiesToDBus`: the loop over the QML keys, in key order. */
  function PropertiesToDBus(qml: PropertyMap): (r: PropertyMap)
    decreases |qml|
  {
    if qml == map[] then map[]
    else
      var k := GreatestKey(qml.Keys);
      var rest := PropertiesToDBus(qml - {k});
      if k == ProviderPropertiesKey then rest + AsMap(qml[k])
      else rest[UpperInitial(k) := ConvertValue(UpperInitial(k), qml[k], true)]
  }

  /** The QML keys that write D-Bus key `x`: a flattened provider map, or a key upper-casing to `x`. */
  function DBusSources(qml: PropertyMap, x: string): set<string> {
    set k | k in qml &&
      ((k == ProviderPropertiesKey && x in AsMap(qml[k])) || (k != ProviderPropertiesKey && UpperInitial(k) == x))
  }

  /** What QML key `k` writes under D-Bus key `x`. */
  function DBusSourceValue(qml: PropertyMap, x: string, k: string): Value
    requires k in DBusSources(qml, x)
  {
    if k == ProviderPropertiesKey then AsMap(qml[k])[x] else ConvertValue(x, qml[k], true)
  }

  lemma DBusSourcesRemove(qml: PropertyMap, k: string, x: string)
    requires k in qml && k !in DBusSources(qml, x)
    ensures DBusSources(qml - {k}, x) == DBusSources(qml, x)
  {
  }

  /** A D-Bus key exists exactly when some QML key writes it. */
  lemma {:induction false} DBusKeys(qml: PropertyMap, x: string)
    ensures x in PropertiesToDBus(qml) <==> DBusSources(qml, x) != {}
    decreases |qml|
  {
    if qml != map[] {
      var k := GreatestKey(qml.Keys);
      DBusKeys(qml - {k}, x);
      if k !in DBusSources(qml, x) {
        DBusSourcesRemove(qml, k, x);
      }
    }
  }

  /** The greatest QML key writes its value last. */
  lemma DBusValueLast(qml: PropertyMap, x: string, w: string)
    requires qml != map[] && w == GreatestKey(qml.Keys) && w in DBusSources(qml, x)
    ensures x in PropertiesToDBus(qml) && PropertiesToDBus(qml)[x] == DBusSourceValue(qml, x, w)
  {
    var rest := PropertiesToDBus(qml - {w});
    if w == ProviderPropertiesKey {
      assert PropertiesToDBus(qml) == rest + AsMap(qml[w]);
    }
  }

  /** The greatest QML key leaves a D-Bus key it does not write alone. */
  lemma DBusValueSkip(qml: PropertyMap, x: string)
    requires qml != map[] && GreatestKey(qml.Keys) !in DBusSources(qml, x)
    ensures var r, rest := PropertiesToDBus(qml), PropertiesToDBus(qml - {GreatestKey(qml.Keys)});
      (x in r <==> x in rest) && (x in rest ==> r[x] == rest[x])
  {
    var k := GreatestKey(qml.Keys);
    var rest := PropertiesToDBus(qml - {k});
    if k == ProviderPropertiesKey {
      assert PropertiesToDBus(qml) == rest + AsMap(qml[k]);
    }
  }

  /** The value under a D-Bus key is what the greatest QML key writing it wrote. */
  lemma {:induction false} DBusValue(qml: PropertyMap, x: string, w: string)
    requires IsGreatest(w, DBusSources(qml, x))
    ensures x in PropertiesToDBus(qml) && PropertiesToDBus(qml)[x] == DBusSourceValue(qml, x, w)
    decreases |qml|
  {
    var k := GreatestKey(qml.Keys);
    if k in DBusSources(qml, x) {
      GreatestIsUnique(w, k, DBusSources(qml, x), qml.Keys);
      DBusValueLast(qml, x, w);
    } else {
      DBusSourcesRemove(qml, k, x);
      DBusValue(qml - {k}, x, w);
      DBusValueSkip(qml, x);
      assert DBusSourceValue(qml - {k}, x, w) == DBusSourceValue(qml, x, w);
    }
  }

  /** The greatest element of a subset that contains the greatest element of the whole set is that element. */
  lemma GreatestIsUnique(w: string, k: string, sub: set<string>, s: set<string>)
    requires IsGreatest(w, sub) && IsGreatest(k, s) && sub <= s && k in sub
    ensures w == k
  {
    LessIsStrictTotalOrder();
  }

  // ------------------------------------------------------------ round trip

  /**
   * D-Bus maps that survive the trip to QML and back: undotted keys do not
   * start with a lower-case letter and are not `ProviderProperties`, and the
   * value of each undotted key survives its key's table (always so for a key
   * without a table).
   */
  predicate RoundTrips(dbus: PropertyMap) {
    forall k :: k in dbus && !Dotted(k) ==>
      && (k == [] || !IsAsciiLower(k[0]))
      && LowerInitial(k) != ProviderPropertiesKey
      && Survives(LowerAll(k), dbus[k], false)
  }

  lemma InitialsInverse(k: string)
    requires k == [] || !IsAsciiLower(k[0])
    ensures UpperInitial(LowerInitial(k)) == k
    ensures LowerAll(LowerInitial(k)) == LowerAll(k)
  {
    if k != [] {
      assert UpperInitial(LowerInitial(k)) == [k[0]] + k[1..];
    }
  }

  lemma NoDotAfterUpperInitial(k: string)
    requires !Dotted(k)
    ensures !Dotted(UpperInitial(k))
  {
    if k != [] {
      assert UpperInitial(k) == [ToAsciiUpper(k[0])] + k[1..];
    }
  }

  lemma ConvertSameLowerKey(a: string, b: string, v: Value, toDBus: bool)
    requires LowerAll(a) == LowerAll(b)
    ensures ConvertValue(a, v, toDBus) == ConvertValue(b, v, toDBus)
  {
  }

  /** Translating a D-Bus map to QML and back gives the map back. */
  lemma {:induction false} DBusQmlRoundTrip(dbus: PropertyMap)
    requires RoundTrips(dbus)
    ensures PropertiesToDBus(PropertiesToQml(dbus)) == dbus
  {
    var q := PropertiesToQml(dbus);
    var r := PropertiesToDBus(q);
    forall x ensures (x in r <==> x in dbus) && (x in dbus ==> r[x] == dbus[x]) {
      RoundTripAt(dbus, x);
    }
  }

  /** Under `RoundTrips`, each QML key other than `providerProperties` has exactly one origin. */
  lemma QmlKeyOrigin(dbus: PropertyMap, k: string)
    requires RoundTrips(dbus)
    requires k in PropertiesToQml(dbus) && k != ProviderPropertiesKey
    ensures UpperInitial(k) in dbus && !Dotted(UpperInitial(k))
    ensures QmlSources(dbus, k) == {UpperInitial(k)}
  {
    PropertiesToQmlKeys(dbus, k);
    var k0 :| k0 in QmlSources(dbus, k);
    InitialsInverse(k0);
    forall k1 | k1 in QmlSources(dbus, k) ensures k1 == k0 {
      InitialsInverse(k1);
    }
  }

  /** Under `RoundTrips`, an undotted D-Bus key is written back only by its own QML key. */
  lemma UndottedSource(dbus: PropertyMap, x: string)
    requires RoundTrips(dbus) && x in dbus && !Dotted(x)
    ensures LowerInitial(x) in PropertiesToQml(dbus)
    ensures DBusSources(PropertiesToQml(dbus), x) == {LowerInitial(x)}
  {
    var q := PropertiesToQml(dbus);
    var k := LowerInitial(x);
    InitialsInverse(x);
    assert x in QmlSources(dbus, k);
    PropertiesToQmlKeys(dbus, k);
    PropertiesToQmlKeys(dbus, ProviderPropertiesKey);
    assert QmlSources(dbus, ProviderPropertiesKey) == {};
    assert ProviderPropertiesKey !in DBusSources(q, x);
    forall k1 | k1 in DBusSources(q, x) ensures k1 == k {
      QmlKeyOrigin(dbus, k1);
      QmlKeyOrigin(dbus, k);
    }
  }

  /** Under `RoundTrips`, an undotted D-Bus key appears in QML under its lower-initial name with its converted value. */
  lemma QmlValueOfUndotted(dbus: PropertyMap, x: string)
    requires RoundTrips(dbus) && x in dbus && !Dotted(x)
    ensures var q, k := PropertiesToQml(dbus), LowerInitial(x);
      k in q && k != ProviderPropertiesKey && q[k] == ConvertValue(x, dbus[x], false)
  {
    var k := LowerInitial(x);
    UndottedSource(dbus, x);
    InitialsInverse(x);
    QmlKeyOrigin(dbus, k);
    QmlTopValue(dbus, k, x);
    ConvertSameLowerKey(x, k, dbus[x], false);
  }

  lemma RoundTripUndotted(dbus: PropertyMap, x: string)
    requires RoundTrips(dbus) && x in dbus && !Dotted(x)
    ensures var r := PropertiesToDBus(PropertiesToQml(dbus));
      x in r && r[x] == dbus[x]
  {
    var q := PropertiesToQml(dbus);
    var k := LowerInitial(x);
    UndottedSource(dbus, x);
    QmlValueOfUndotted(dbus, x);
    DBusValue(q, x, k);
    assert DBusSourceValue(q, x, k) == ConvertValue(x, ConvertValue(x, dbus[x], false), true);
    ConvertRoundTrip(x, dbus[x], false);
  }

  lemma RoundTripDotted(dbus: PropertyMap, x: string)
    requires RoundTrips(dbus) && x in dbus && Dotted(x)
    ensures var r := PropertiesToDBus(PropertiesToQml(dbus));
      x in r && r[x] == dbus[x]
  {
    var q := PropertiesToQml(dbus);
    PropertiesToQmlKeys(dbus, ProviderPropertiesKey);
    assert x in ProviderPart(dbus);
    forall k | k in DBusSources(q, x) ensures k == ProviderPropertiesKey {
      if k != ProviderPropertiesKey {
        PropertiesToQmlKeys(dbus, k);
        NoDotAfterUpperInitial(k);
      }
    }
    assert DBusSources(q, x) == {ProviderPropertiesKey};
    DBusValue(q, x, ProviderPropertiesKey);
  }

  lemma RoundTripAbsent(dbus: PropertyMap, x: string)
    requires RoundTrips(dbus) && x !in dbus
    ensures x !in PropertiesToDBus(PropertiesToQml(dbus))
  {
    var q := PropertiesToQml(dbus);
    DBusKeys(q, x);
    forall k | k in DBusSources(q, x) ensures false {
      if k == ProviderPropertiesKey {
        PropertiesToQmlKeys(dbus, k);
      } else {
        QmlKeyOrigin(dbus, k);
      }
    }
  }

  lemma RoundTripAt(dbus: PropertyMap, x: string)
    requires RoundTrips(dbus)
    ensures var r := PropertiesToDBus(PropertiesToQml(dbus));
      (x in r <==> x in dbus) && (x in dbus ==> r[x] == dbus[x])
  {
    if x !in dbus {
      RoundTripAbsent(dbus, x);
    } else if Dotted(x) {
      RoundTripDotted(dbus, x);
    } else {
      RoundTripUndotted(dbus, x);
    }
  }
}
