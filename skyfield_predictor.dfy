/**
 * Satellite lookup in src/skyfield_predictor.py: the key normaliser, the
 * per-path cache of TLE indexes with their by-name and by-NORAD
 * dictionaries, and the resolution order of get_satellite (NORAD number,
 * exact name, unique prefix, unique substring). Skyfield's own TLE reader
 * is replaced by the list of satellites it would return for the file.
 */
module SkyfieldPredictor {
  import opened Wrappers
  import opened Builtins

  // ---------------------------------------------------------------------------
  // Keys
  // ---------------------------------------------------------------------------

  /** The normalised key: whitespace removed, letters upper-cased. */
  function NormKey(s: string): (r: string)
    ensures NoSpace(r)
    ensures forall i :: 0 <= i < |r| ==> !('a' <= r[i] <= 'z')
  {
    var t := RemoveSpaces(s);
    var r := Upper(t);
    assert forall i :: 0 <= i < |r| ==> r[i] == UpperChar(t[i]) && !IsSpace(t[i]);
    r
  }

  /** The key is the upper-cased non-whitespace characters of `s`, in order. */
  lemma NormKeyMeaning(s: string)
    ensures NormKey(s) == Upper(DropSpaces(s))
  {
    RemoveSpacesIsDrop(s);
  }

  lemma {:induction false} UpperIdempotent(s: string)
    ensures Upper(Upper(s)) == Upper(s)
  {
    assert forall i :: 0 <= i < |s| ==> Upper(Upper(s))[i] == Upper(s)[i];
  }

  /** Normalising a normalised key changes nothing. */
  lemma NormKeyIdempotent(s: string)
    ensures NormKey(NormKey(s)) == NormKey(s)
  {
    var t := RemoveSpaces(s);
    var r := NormKey(s);
    RemoveSpacesOfNoSpace(r);
    UpperIdempotent(t);
  }

  // ---------------------------------------------------------------------------
  // Satellites and insertion-ordered dictionaries
  // ---------------------------------------------------------------------------

  /** A Skyfield EarthSatellite as lookup sees it: its printed name (absent
      when the file has no title line), its catalogue number and its two
      element lines. */
  datatype Sat = Sat(name: Option<string>, satnum: nat, line1: string, line2: string)

  /** A Python dict as its items in insertion order. */
  type Items = seq<(string, Sat)>

  predicate KeysDistinct(d: Items) {
    forall i, j :: 0 <= i < j < |d| ==> d[i].0 != d[j].0
  }

  /** Dictionary lookup: the value stored under k, if any. */
  function Get(d: Items, k: string): (r: Option<Sat>)
    ensures r.Some? ==> (k, r.value) in d
    ensures r.None? ==> forall x :: x in d ==> x.0 != k
  {
    if d == [] then None
    else if d[0].0 == k then Some(d[0].1)
    else Get(d[1..], k)
  }

  /** Dictionary store: a key already present keeps its place and takes the new
      value, a new key goes at the end. */
  function Put(d: Items, k: string, v: Sat): (r: Items)
    ensures Get(r, k) == Some(v)
    ensures forall k' :: k' != k ==> Get(r, k') == Get(d, k')
    ensures forall x :: x in r ==> x == (k, v) || x in d
  {
    if d == [] then [(k, v)]
    else if d[0].0 == k then [(k, v)] + d[1..]
    else
      var rest := Put(d[1..], k, v);
      assert forall x :: x in d[1..] ==> x in d;
      [d[0]] + rest
  }

  lemma {:induction false} PutDistinct(d: Items, k: string, v: Sat)
    requires KeysDistinct(d)
    ensures KeysDistinct(Put(d, k, v))
  {
    if d != [] && d[0].0 != k {
      PutDistinct(d[1..], k, v);
      var rest := Put(d[1..], k, v);
      assert forall x :: x in rest ==> x.0 != d[0].0 by {
        assert forall x :: x in d[1..] ==> x.0 != d[0].0;
      }
      assert Put(d, k, v) == [d[0]] + rest;
    }
  }

  /** The dict a loop that stores every satellite under `key(sat)` builds. */
  function IndexBy(sats: seq<Sat>, key: Sat -> string): (d: Items)
    ensures KeysDistinct(d)
  {
    if sats == [] then []
    else
      var n := |sats| - 1;
      PutDistinct(IndexBy(sats[..n], key), key(sats[n]), sats[n]);
      Put(IndexBy(sats[..n], key), key(sats[n]), sats[n])
  }

  /** The position of the last satellite whose key is `k`. */
  function LastWith(sats: seq<Sat>, key: Sat -> string, k: string): (r: Option<nat>)
    ensures r.Some? ==> r.value < |sats| && key(sats[r.value]) == k
                        && forall m :: r.value < m < |sats| ==> key(sats[m]) != k
    ensures r.None? ==> forall m :: 0 <= m < |sats| ==> key(sats[m]) != k
  {
    if sats == [] then None
    else
      var n := |sats| - 1;
      if key(sats[n]) == k then Some(n) else LastWith(sats[..n], key, k)
  }

  /** Later satellites overwrite earlier ones: the dict holds, under each key,
      the last satellite with that key, and no key that no satellite has. */
  lemma {:induction false} IndexLastWins(sats: seq<Sat>, key: Sat -> string, k: string)
    ensures Get(IndexBy(sats, key), k) ==
      match LastWith(sats, key, k)
      case None => None
      case Some(j) => Some(sats[j])
  {
    if sats != [] {
      var n := |sats| - 1;
      if key(sats[n]) != k {
        IndexLastWins(sats[..n], key, k);
        match LastWith(sats[..n], key, k)
        case None =>
        case Some(j) => assert sats[..n][j] == sats[j];
      }
    }
  }

  // ---------------------------------------------------------------------------
  // The index and its cache
  // ---------------------------------------------------------------------------

  datatype TleIndex = TleIndex(path: string, sats: seq<Sat>, byName: Items, byNorad: Items)

  /** Missing names count as "". */
  function NameKey(s: Sat): string {
    NormKey(match s.name case None => "" case Some(n) => n)
  }

  /** The catalogue number in decimal, without leading zeros. */
  function NoradKey(s: Sat): string {
    Decimal(s.satnum)
  }

  /** The index load_tle_index builds for the satellites of one file. */
  function IndexOf(path: string, sats: seq<Sat>): TleIndex {
    TleIndex(path, sats, IndexBy(sats, NameKey), IndexBy(sats, NoradKey))
  }

  /** The indexing loop of load_tle_index. */
  method BuildIndex(path: string, sats: seq<Sat>) returns (idx: TleIndex)
    ensures idx == IndexOf(path, sats)
  {
    var byName: Items := [];
    var byNorad: Items := [];
    for i := 0 to |sats|
      invariant byName == IndexBy(sats[..i], NameKey)
      invariant byNorad == IndexBy(sats[..i], NoradKey)
    {
      assert sats[..i + 1][..i] == sats[..i];
      byName := Put(byName, NameKey(sats[i]), sats[i]);
      byNorad := Put(byNorad, NoradKey(sats[i]), sats[i]);
    }
    assert sats[..|sats|] == sats;
    idx := TleIndex(path, sats, byName, byNorad);
  }

  /** The process-wide `_TLE_CACHE`: each path is read and indexed once. */
  class TleCache {
    var entries: map<string, TleIndex>

    /** Every cached index is the index of its own path's satellites. */
    ghost predicate Valid()
      reads this
    {
      forall p :: p in entries ==> entries[p] == IndexOf(p, entries[p].sats)
    }

    constructor()
      ensures Valid() && entries == map[]
    {
      entries := map[];
    }

    /** load_tle_index: `fileSats` is what Skyfield would read from `path`
        now; a path seen before returns its cached index unchanged, even if
        the file has changed since. */
    method LoadTleIndex(path: string, fileSats: seq<Sat>) returns (idx: TleIndex)
      requires Valid()
      modifies this
      ensures Valid()
      ensures path in entries && entries[path] == idx && idx == IndexOf(path, idx.sats)
      ensures path in old(entries) ==> idx == old(entries)[path] && entries == old(entries)
      ensures path !in old(entries) ==>
        idx == IndexOf(path, fileSats) && entries == old(entries)[path := idx]
    {
      if path in entries {
        return entries[path];
      }
      idx := BuildIndex(path, fileSats);
      entries := entries[path := idx];
    }

    /** get_satellite: load (or reuse) the index, then resolve the key. */
    method GetSatellite(path: string, fileSats: seq<Sat>, key: string, allowPrefix: bool)
      returns (r: Result<Sat, LookupError>)
      requires Valid()
      modifies this
      ensures Valid()
      ensures path in entries && r == Resolve(entries[path], key, allowPrefix)
      ensures path in old(entries) ==> entries == old(entries)
      ensures path !in old(entries) ==> entries == old(entries)[path := IndexOf(path, fileSats)]
    {
      var idx := LoadTleIndex(path, fileSats);
      r := Resolve(idx, key, allowPrefix);
    }
  }

  // ---------------------------------------------------------------------------
  // Resolution
  // ---------------------------------------------------------------------------

  /** The ValueErrors get_satellite raises; the example names in the
      ambiguity message are not modelled. */
  datatype LookupError =
    | NoradNotFound(number: string)
    | Ambiguous(key: string, count: nat)
    | NotFound(key: string)

  /** A non-empty key made of decimal digits only. */
  predicate IsDigitKey(k: string) {
    |k| > 0 && AllDigits(k)
  }

  /** `t in s` for strings. */
  predicate Contains(s: string, t: string)
    decreases |s|
  {
    StartsWith(s, t) || (s != [] && Contains(s[1..], t))
  }

  /** The name starts with nk when `prefix`, contains it otherwise. */
  predicate Fits(name: string, nk: string, prefix: bool) {
    if prefix then StartsWith(name, nk) else Contains(name, nk)
  }

  /** The items of `d` whose name fits `nk`, in dict order. */
  function Filter(d: Items, nk: string, prefix: bool): (ms: Items)
    ensures forall x :: x in ms <==> x in d && Fits(x.0, nk, prefix)
    ensures KeysDistinct(d) ==> KeysDistinct(ms)
  {
    if d == [] then []
    else
      var rest := Filter(d[1..], nk, prefix);
      assert forall x :: x in d <==> x == d[0] || x in d[1..];
      if Fits(d[0].0, nk, prefix) then
        assert KeysDistinct(d) ==> forall x :: x in rest ==> x.0 != d[0].0;
        [d[0]] + rest
      else rest
  }

  /** One candidate is the answer; several are an error; none falls through. */
  function Unique(ms: Items, key: string): Option<Result<Sat, LookupError>> {
    if |ms| == 1 then Some(Ok(ms[0].1))
    else if |ms| > 1 then Some(Err(Ambiguous(key, |ms|)))
    else None
  }

  /** get_satellite once the index is loaded. */
  function Resolve(idx: TleIndex, key: string, allowPrefix: bool): Result<Sat, LookupError> {
    var k := Strip(key);
    if IsDigitKey(k) then
      match Get(idx.byNorad, k)
      case Some(s) => Ok(s)
      case None => Err(NoradNotFound(k))
    else
      var nk := NormKey(k);
      match Get(idx.byName, nk)
      case Some(s) => Ok(s)
      case None =>
        var byPrefix := if allowPrefix then Unique(Filter(idx.byName, nk, true), key) else None;
        if byPrefix.Some? then byPrefix.value
        else
          var bySubstring := Unique(Filter(idx.byName, nk, false), key);
          if bySubstring.Some? then bySubstring.value else Err(NotFound(key))
  }

  // ---------------------------------------------------------------------------
  // Properties of the resolution order
  // ---------------------------------------------------------------------------

  /** An all-digit key is looked up as a NORAD number and nowhere else: the
      name dictionary and the prefix flag make no difference. */
  lemma NoradOnly(idx: TleIndex, key: string, allowPrefix: bool, names: Items, prefix2: bool)
    requires IsDigitKey(Strip(key))
    ensures Resolve(idx, key, allowPrefix) == Resolve(idx.(byName := names), key, prefix2)
    ensures Resolve(idx, key, allowPrefix).Ok? <==> Get(idx.byNorad, Strip(key)).Some?
    ensures Resolve(idx, key, allowPrefix).Err? ==>
      Resolve(idx, key, allowPrefix).error == NoradNotFound(Strip(key))
  {
  }

  /** The NORAD dictionary holds str(int(satnum)), which has no leading
      zeros: a zero-padded number such as the "07530" of a TLE line is
      never found, whatever the file holds. */
  lemma PaddedNoradMisses(path: string, sats: seq<Sat>, key: string, allowPrefix: bool)
    requires var k := Strip(key); IsDigitKey(k) && |k| > 1 && k[0] == '0'
    ensures Resolve(IndexOf(path, sats), key, allowPrefix) == Err(NoradNotFound(Strip(key)))
  {
    var k := Strip(key);
    IndexLastWins(sats, NoradKey, k);
    match LastWith(sats, NoradKey, k)
    case None =>
    case Some(j) =>
      DecimalNoLeadingZero(sats[j].satnum);
      assert false;
  }

  /** An exact hit on the normalised name wins over any prefix or
      substring match. */
  lemma ExactFirst(idx: TleIndex, key: string, allowPrefix: bool, n: string, s: Sat)
    requires !IsDigitKey(Strip(key))
    requires (n, s) in idx.byName && n == NormKey(Strip(key))
    requires KeysDistinct(idx.byName)
    ensures Resolve(idx, key, allowPrefix) == Ok(s)
  {
    var nk := NormKey(Strip(key));
    var g := Get(idx.byName, nk);
    if g.None? {
      assert false;
    } else if g.value != s {
      GetUnique(idx.byName, nk, s, g.value);
    }
  }

  lemma GetUnique(d: Items, k: string, s: Sat, t: Sat)
    requires KeysDistinct(d) && (k, s) in d && (k, t) in d
    ensures s == t
  {
    var i :| 0 <= i < |d| && d[i] == (k, s);
    var j :| 0 <= j < |d| && d[j] == (k, t);
    assert i == j;
  }

  /** A seq of items with distinct keys all equal to `x` is `[x]`. */
  lemma OnlyItem(ms: Items, x: (string, Sat))
    requires KeysDistinct(ms) && x in ms
    requires forall y :: y in ms ==> y == x
    ensures ms == [x]
  {
    assert forall i :: 0 <= i < |ms| ==> ms[i] in ms;
    assert |ms| >= 2 ==> ms[0].0 == ms[1].0;
    assert |ms| == 1 && ms[0] == x;
  }

  /** With prefixes allowed, a prefix shared by one name only resolves to
      that name's satellite, however many names contain the key. */
  lemma UniquePrefix(idx: TleIndex, key: string, n: string, s: Sat)
    requires KeysDistinct(idx.byName)
    requires !IsDigitKey(Strip(key)) && Get(idx.byName, NormKey(Strip(key))).None?
    requires (n, s) in idx.byName && StartsWith(n, NormKey(Strip(key)))
    requires forall x :: x in idx.byName && StartsWith(x.0, NormKey(Strip(key))) ==> x == (n, s)
    ensures Resolve(idx, key, true) == Ok(s)
  {
    var ms := Filter(idx.byName, NormKey(Strip(key)), true);
    OnlyItem(ms, (n, s));
  }

  /** No name starting with the key: the prefix step falls through and the
      result is the one without prefix matching. */
  lemma PrefixFallsThrough(idx: TleIndex, key: string)
    requires forall x :: x in idx.byName ==> !StartsWith(x.0, NormKey(Strip(key)))
    ensures Resolve(idx, key, true) == Resolve(idx, key, false)
  {
    NoPrefixFits(idx.byName, NormKey(Strip(key)));
  }

  lemma NoPrefixFits(d: Items, nk: string)
    requires forall x :: x in d ==> !StartsWith(x.0, nk)
    ensures Filter(d, nk, true) == []
  {
    var ms := Filter(d, nk, true);
    assert forall i :: 0 <= i < |ms| ==> ms[i] in ms;
  }

  lemma {:induction false} PrefixContains(s: string, t: string)
    requires StartsWith(s, t)
    ensures Contains(s, t)
  {
  }

  /** A satellite is returned only for a NORAD number it is filed under, or
      for a key whose normalised form occurs in the name it is filed under. */
  lemma ResolveSound(idx: TleIndex, key: string, allowPrefix: bool, s: Sat)
    requires Resolve(idx, key, allowPrefix) == Ok(s)
    ensures var k := Strip(key);
      if IsDigitKey(k) then (k, s) in idx.byNorad
      else exists n :: (n, s) in idx.byName && Contains(n, NormKey(k))
  {
    var k := Strip(key);
    if !IsDigitKey(k) {
      var nk := NormKey(k);
      var g := Get(idx.byName, nk);
      if g.Some? {
        assert (nk, s) in idx.byName;
        assert StartsWith(nk, nk);
      } else {
        var pm := Filter(idx.byName, nk, true);
        if allowPrefix && 0 < |pm| {
          assert pm[0] in pm;
          PrefixContains(pm[0].0, nk);
        } else {
          var cm := Filter(idx.byName, nk, false);
          assert cm[0] in cm;
        }
      }
    }
  }

  /** "Not found" is reported exactly when the key is not a number and no
      name contains its normalised form. */
  lemma NotFoundExactly(idx: TleIndex, key: string, allowPrefix: bool)
    ensures var k := Strip(key);
      Resolve(idx, key, allowPrefix) == Err(NotFound(key)) <==>
        !IsDigitKey(k) && forall x :: x in idx.byName ==> !Contains(x.0, NormKey(k))
  {
    var k := Strip(key);
    if !IsDigitKey(k) {
      var nk := NormKey(k);
      if forall x :: x in idx.byName ==> !Contains(x.0, nk) {
        NothingFits(idx.byName, nk);
      } else {
        var x :| x in idx.byName && Contains(x.0, nk);
        assert x in Filter(idx.byName, nk, false);
      }
    }
  }

  /** A key no name contains has no exact, prefix or substring match. */
  lemma NothingFits(d: Items, nk: string)
    requires forall x :: x in d ==> !Contains(x.0, nk)
    ensures Get(d, nk).None? && Filter(d, nk, true) == [] && Filter(d, nk, false) == []
  {
  }

  /** "Ambiguous" always names at least two distinct dictionary names that
      fit the key. */
  lemma AmbiguousHasTwo(idx: TleIndex, key: string, allowPrefix: bool, q: string, c: nat)
    requires KeysDistinct(idx.byName)
    requires Resolve(idx, key, allowPrefix) == Err(Ambiguous(q, c))
    ensures c >= 2 && q == key
    ensures exists x, y :: (x in idx.byName && y in idx.byName && x.0 != y.0
      && Contains(x.0, NormKey(Strip(key))) && Contains(y.0, NormKey(Strip(key))))
  {
    var nk := NormKey(Strip(key));
    var pm := Filter(idx.byName, nk, true);
    if allowPrefix && |pm| > 1 {
      assert pm[0] in pm && pm[1] in pm;
      PrefixContains(pm[0].0, nk);
      PrefixContains(pm[1].0, nk);
    } else {
      var cm := Filter(idx.byName, nk, false);
      assert cm[0] in cm && cm[1] in cm;
    }
  }

  /** With prefixes allowed and no exact hit, two different names starting
      with the key make the lookup ambiguous, counting every such name. */
  lemma AmbiguousPrefix(idx: TleIndex, key: string, x: (string, Sat), y: (string, Sat))
    requires !IsDigitKey(Strip(key)) && Get(idx.byName, NormKey(Strip(key))).None?
    requires x in idx.byName && y in idx.byName && x != y
    requires StartsWith(x.0, NormKey(Strip(key))) && StartsWith(y.0, NormKey(Strip(key)))
    ensures var pm := Filter(idx.byName, NormKey(Strip(key)), true);
      |pm| >= 2 && Resolve(idx, key, true) == Err(Ambiguous(key, |pm|))
  {
    var pm := Filter(idx.byName, NormKey(Strip(key)), true);
    TwoMembers(pm, x, y);
  }

  /** Without a prefix step (prefixes not allowed, or no name starting with
      the key) and no exact hit, two different names containing the key make
      the lookup ambiguous, counting every such name. */
  lemma AmbiguousSubstring(idx: TleIndex, key: string, allowPrefix: bool, x: (string, Sat), y: (string, Sat))
    requires !IsDigitKey(Strip(key)) && Get(idx.byName, NormKey(Strip(key))).None?
    requires allowPrefix ==> forall z :: z in idx.byName ==> !StartsWith(z.0, NormKey(Strip(key)))
    requires x in idx.byName && y in idx.byName && x != y
    requires Contains(x.0, NormKey(Strip(key))) && Contains(y.0, NormKey(Strip(key)))
    ensures var cm := Filter(idx.byName, NormKey(Strip(key)), false);
      |cm| >= 2 && Resolve(idx, key, allowPrefix) == Err(Ambiguous(key, |cm|))
  {
    var nk := NormKey(Strip(key));
    if allowPrefix {
      NoPrefixFits(idx.byName, nk);
    }
    TwoMembers(Filter(idx.byName, nk, false), x, y);
  }

  /** Without a prefix step and with no exact hit, a key contained in one
      name only resolves to that name's satellite. */
  lemma UniqueSubstring(idx: TleIndex, key: string, allowPrefix: bool, n: string, s: Sat)
    requires KeysDistinct(idx.byName)
    requires !IsDigitKey(Strip(key)) && Get(idx.byName, NormKey(Strip(key))).None?
    requires allowPrefix ==> forall z :: z in idx.byName ==> !StartsWith(z.0, NormKey(Strip(key)))
    requires (n, s) in idx.byName && Contains(n, NormKey(Strip(key)))
    requires forall x :: x in idx.byName && Contains(x.0, NormKey(Strip(key))) ==> x == (n, s)
    ensures Resolve(idx, key, allowPrefix) == Ok(s)
  {
    var nk := NormKey(Strip(key));
    if allowPrefix {
      NoPrefixFits(idx.byName, nk);
    }
    OnlyItem(Filter(idx.byName, nk, false), (n, s));
  }

  /** A sequence holding two different values has at least two elements. */
  lemma TwoMembers<T>(s: seq<T>, x: T, y: T)
    requires x in s && y in s && x != y
    ensures |s| >= 2
  {
    var i :| 0 <= i < |s| && s[i] == x;
    var j :| 0 <= j < |s| && s[j] == y;
    assert i != j;
  }
}
