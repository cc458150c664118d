/** `Version::get` on the table files themselves: every level is searched in the bytes its
    tables were written to. */
module VersionFiles {
  import opened Bytes
  import opened Entries
  import opened Versions
  import opened TableReaders
  import opened TableRefinements

  /** The files hold the tables they are named after. */
  ghost predicate TablesStored(files: map<nat, Bytes>, ts: seq<Table>) {
    forall i :: 0 <= i < |ts| ==> ts[i].meta.number in files && Holds(files[ts[i].meta.number], ts[i].entries)
  }

  /** L0: newest file first, until one answers. */
  method GetFromLevel0(ts: seq<Table>, files: map<nat, Bytes>, k: Bytes, s: nat, verify: bool) returns (r: LookupResult)
    requires TablesStored(files, ts) && s <= MAX_SEQUENCE
    ensures r == Answer(Level0Lookup(ts, k, s))
  {
    hide Holds;
    hide Lookup;
    var i := 0;
    while i < |ts|
      invariant 0 <= i <= |ts|
      invariant Level0Lookup(ts, k, s) == Level0Lookup(ts[i..], k, s)
    {
      assert ts[i..][1..] == ts[i + 1..];
      r := GetFromFile(files[ts[i].meta.number], k, s, verify, ts[i].entries);
      if !r.Absent? { return; }
      i := i + 1;
    }
    r := Absent;
  }

  /** A lower level has at most one candidate. */
  method GetFromLevel(ts: seq<Table>, files: map<nat, Bytes>, k: Bytes, s: nat, verify: bool) returns (r: LookupResult)
    requires TablesOk(ts) && Disjoint(ts) && TablesStored(files, ts) && s <= MAX_SEQUENCE
    ensures r == Answer(LevelLookup(ts, k, s))
  {
    hide Holds;
    hide Lookup;
    hide TablesOk;
    hide Disjoint;
    var c := LowerBound(ts, k);
    if c == |ts| || Less(k, Smallest(ts[c])) { return Absent; }
    r := GetFromFile(files[ts[c].meta.number], k, s, verify, ts[c].entries);
  }

  method GetFromVersion(v: Version, files: map<nat, Bytes>, k: Bytes, s: nat, verify: bool) returns (r: LookupResult)
    requires LevelsOk(v) && s <= MAX_SEQUENCE && forall l :: 0 <= l < NUM_LEVELS ==> TablesStored(files, v.levels[l])
    ensures r == Answer(Get(v, k, s))
  {
    hide TablesOk;
    hide Disjoint;
    hide NewestFirst;
    hide TablesStored;
    hide Level0Lookup;
    hide LevelLookup;
    r := GetFromLevel0(v.levels[0], files, k, s, verify);
    if !r.Absent? { return; }
    var level := 1;
    while level < NUM_LEVELS
      invariant 1 <= level <= NUM_LEVELS
      invariant forall j :: 1 <= j < level ==> LevelLookup(v.levels[j], k, s).None?
    {
      r := GetFromLevel(v.levels[level], files, k, s, verify);
      if !r.Absent? { return; }
      level := level + 1;
    }
    r := Absent;
  }
}
