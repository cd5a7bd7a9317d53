/** Device capabilities (`quadrants/rhi/device_capability.cpp`): the
    name/enum conversions and the capability-to-level map.

    The capability list itself comes from `rhi_constants.inc.h`, which is
    not part of this model: it is the parameter `names`, and a capability's
    enum value is its position in that list. */
module DeviceCapabilities {
  import opened Results

  type Capability = nat

  /** A capability level, stored as `uint32_t`. */
  type Level = x: nat | x < 0x1_0000_0000

  datatype CapabilityError = UnexpectedCapabilityName(name: string)

  /** The position of `name` among `names[from..]`, scanning in list order. */
  function FindName(names: seq<string>, name: string, from: nat): (r: Option<nat>)
    requires from <= |names|
    ensures r.Some? ==> from <= r.value < |names| && names[r.value] == name
    ensures r.Some? ==> forall j :: from <= j < r.value ==> names[j] != name
    ensures r.None? ==> forall j :: from <= j < |names| ==> names[j] != name
    decreases |names| - from
  {
    if from == |names| then None
    else if names[from] == name then Some(from)
    else FindName(names, name, from + 1)
  }

  /** `str2devcap`: one comparison per listed capability, in list order;
      a name that matches none is an error. */
  function Str2Devcap(names: seq<string>, name: string): (r: Result<Capability, CapabilityError>)
    ensures r.Err? <==> name !in names
    ensures r.Err? ==> r.error == UnexpectedCapabilityName(name)
    ensures r.Ok? ==> r.value < |names| && names[r.value] == name
  {
    match FindName(names, name, 0)
    case Some(i) => Ok(i)
    case None => Err(UnexpectedCapabilityName(name))
  }

  /** `to_string`: the listed name, or "Unknown" for a value outside the list. */
  function ToString(names: seq<string>, c: Capability): (s: string)
    ensures c < |names| ==> s == names[c]
    ensures c >= |names| ==> s == "Unknown"
  {
    if c < |names| then names[c] else "Unknown"
  }

  /** `DeviceCapabilityConfig`: the `devcaps` map. */
  datatype Config = Config(devcaps: map<Capability, Level>)

  /** `contains`: is the capability a key of the map? (1 or 0 in the source.) */
  function Contains(cfg: Config, c: Capability): (r: nat)
    ensures r == 1 <==> c in cfg.devcaps
    ensures r <= 1
  {
    if c in cfg.devcaps then 1 else 0
  }

  /** `get`: the stored level, 0 when the capability is absent. */
  function Get(cfg: Config, c: Capability): (r: Level)
    ensures c in cfg.devcaps ==> r == cfg.devcaps[c]
    ensures c !in cfg.devcaps ==> r == 0
  {
    if c in cfg.devcaps then cfg.devcaps[c] else 0
  }

  /** `set`: store (or overwrite) the level of one capability. */
  function Set(cfg: Config, c: Capability, level: Level): (r: Config)
    ensures Get(r, c) == level && Contains(r, c) == 1
    ensures forall d :: d != c ==> Get(r, d) == Get(cfg, d) && Contains(r, d) == Contains(cfg, d)
    ensures r.devcaps.Keys == cfg.devcaps.Keys + {c}
  {
    Config(cfg.devcaps[c := level])
  }

  /** `to_inner`: the map itself. */
  function ToInner(cfg: Config): (m: map<Capability, Level>)
    ensures forall c :: (c in m <==> Contains(cfg, c) == 1)
    ensures forall c :: c in m ==> m[c] == Get(cfg, c)
  {
    cfg.devcaps
  }
}

/** Name/enum round trips and the behaviour of the map. */
module DeviceCapabilityProperties {
  import opened Results
  import opened DeviceCapabilities

  predicate Distinct(names: seq<string>)
  {
    forall i, j :: 0 <= i < j < |names| ==> names[i] != names[j]
  }

  /** Parsing a name and printing the capability gives the name back. */
  lemma NameRoundTrip(names: seq<string>, name: string)
    requires name in names
    ensures Str2Devcap(names, name).Ok?
    ensures ToString(names, Str2Devcap(names, name).value) == name
  {
  }

  /** With a list of distinct names, printing a listed capability and
      parsing the name gives the capability back. */
  lemma CapabilityRoundTrip(names: seq<string>, c: Capability)
    requires Distinct(names)
    requires c < |names|
    ensures Str2Devcap(names, ToString(names, c)) == Ok(c)
  {
  }

  /** A name that appears twice parses to its first position. */
  lemma DuplicateNameParsesToFirst(names: seq<string>, i: nat, j: nat)
    requires i < j < |names| && names[i] == names[j]
    requires forall k :: 0 <= k < i ==> names[k] != names[i]
    ensures Str2Devcap(names, names[j]) == Ok(i)
  {
  }

  /** An empty configuration reports every capability absent at level 0. */
  lemma EmptyConfig(c: Capability)
    ensures Contains(Config(map[]), c) == 0 && Get(Config(map[]), c) == 0
  {
  }

  /** Setting twice keeps the later level; setting two different
      capabilities commutes. */
  lemma SetOverwritesAndCommutes(cfg: Config, c: Capability, d: Capability, l1: Level, l2: Level)
    ensures Set(Set(cfg, c, l1), c, l2) == Set(cfg, c, l2)
    ensures c != d ==> Set(Set(cfg, c, l1), d, l2) == Set(Set(cfg, d, l2), c, l1)
  {
  }

  /** Setting a capability to its current level changes nothing observable
      through `contains` and `get`, except that an absent capability
      becomes present at level 0. */
  lemma SetCurrentLevel(cfg: Config, c: Capability, d: Capability)
    ensures Get(Set(cfg, c, Get(cfg, c)), d) == Get(cfg, d)
    ensures Contains(Set(cfg, c, Get(cfg, c)), c) == 1
  {
  }
}
