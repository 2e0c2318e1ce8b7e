/** apps/runtime/src/config.c, `config_build_environment`
  *
  * An environment is an array of entries NAME=value ended by a null pointer.
  */
module TenantEnvironment {
  import opened Prelude
  import opened ConfigReferences
  import opened ConfigExpansion

  const CONFIG_MAX_TENANT_VARIABLES := 256
  const CONFIG_PLATFORM_VARIABLES := 9
  const CONFIG_MAX_ENVIRONMENT_VARIABLES := CONFIG_MAX_TENANT_VARIABLES + CONFIG_PLATFORM_VARIABLES
  const CONFIG_MAX_HOSTNAME := 253
  const CONFIG_MAX_ADDRESS := 45
  const MAX_PORT := 65_535

  // ----- Entries and their names

  function NameOf(entry: string): (name: string)
    requires '=' in entry
    ensures '=' !in name && |name| < |entry| && entry[..|name| + 1] == name + "="
  {
    entry[..IndexOf(entry, '=', 0)]
  }

  function Entry(name: string, value: string): string {
    name + "=" + value
  }

  lemma NameOfEntry(name: string, value: string)
    requires '=' !in name
    ensures '=' in Entry(name, value) && NameOf(Entry(name, value)) == name
  {
    var entry := Entry(name, value);
    assert entry[|name|] == '=';
    assert forall k | 0 <= k < |name| :: entry[k] == name[k];
    assert IndexOf(entry, '=', 0) == |name|;
  }

  /** `is_named`: the entry starts with the name and goes on with '='. */
  predicate IsNamed(entry: string, name: string) {
    name <= entry && At(entry, |name|) == '='
  }

  lemma IsNamedIsName(entry: string, name: string)
    requires '=' in entry && '=' !in name
    ensures IsNamed(entry, name) <==> NameOf(entry) == name
  {
    if IsNamed(entry, name) {
      assert forall k | 0 <= k < |name| :: entry[k] == name[k];
      assert IndexOf(entry, '=', 0) == |name|;
    }
  }

  predicate Defines(entries: seq<string>, name: string) {
    exists k :: 0 <= k < |entries| && IsNamed(entries[k], name)
  }

  predicate Named(entries: seq<string>) {
    forall k | 0 <= k < |entries| :: '=' in entries[k]
  }

  predicate DistinctNames(entries: seq<string>)
    requires Named(entries)
  {
    forall i, j | 0 <= i < j < |entries| :: NameOf(entries[i]) != NameOf(entries[j])
  }

  // ----- What the environment is made of

  const HTTP_PORT := "NIBRUN_HTTP_PORT"
  const HOSTNAME := "NIBRUN_HOSTNAME"
  const DATA_DIR_NAME := "NIBRUN_DATA_DIR"
  const PUBLIC_IPV4 := "NIBRUN_PUBLIC_IPV4"
  const EXTRA_PUBLIC_PORT := "NIBRUN_EXTRA_PUBLIC_PORT"
  const PORT_ALIAS := "PORT"

  /** The platform's names, in the order their entries come. */
  function Rank(name: string): nat {
    if name == HTTP_PORT then 0
    else if name == PORT_ALIAS then 1
    else if name == DATA_DIR_NAME then 2
    else if name == HOSTNAME then 3
    else if name == PUBLIC_IPV4 then 4
    else if name == EXTRA_PUBLIC_PORT then 5
    else 6
  }

  predicate PlatformName(name: string) {
    Rank(name) < 6
  }

  function WithValue(entries: seq<string>, name: string, value: Option<string>): seq<string> {
    if value.Some? then entries + [Entry(name, value.value)] else entries
  }

  function ExtraPort(config: Config): Option<string> {
    if config.extraPublicPort != 0 then Some(Decimal(config.extraPublicPort)) else None
  }

  function Platform(config: Config): seq<string> {
    var issued :=
      [Entry(HTTP_PORT, Decimal(config.port)), Entry(PORT_ALIAS, Decimal(config.port)), Entry(DATA_DIR_NAME, DATA_DIR)];
    WithValue(WithValue(WithValue(issued, HOSTNAME, config.hostname), PUBLIC_IPV4, config.publicIpv4),
              EXTRA_PUBLIC_PORT, ExtraPort(config))
  }

  /** The tenant's variables under names that are not the platform's. */
  function Kept(tenant: seq<string>): (kept: seq<string>)
    requires Named(tenant)
    ensures |kept| <= |tenant|
  {
    if tenant == [] then []
    else
      var last := tenant[|tenant| - 1];
      Kept(tenant[..|tenant| - 1]) + if PlatformName(NameOf(last)) then [] else [last]
  }

  function WithDefault(entries: seq<string>, name: string, value: string): seq<string> {
    if Defines(entries, name) then entries else entries + [Entry(name, value)]
  }

  function Environment(config: Config, tenant: seq<string>): seq<string>
    requires Named(tenant)
  {
    WithDefault(WithDefault(WithDefault(Platform(config) + Kept(tenant), "HOME", "/app"), "TMPDIR", "/tmp"),
                "PATH", "/usr/bin:/bin")
  }

  // ----- What it promises

  /** Entries of the platform's, in order and below a rank. */
  ghost predicate Ranked(entries: seq<string>, below: nat) {
    && Named(entries)
    && (forall k | 0 <= k < |entries| :: Rank(NameOf(entries[k])) < below)
    && (forall i, j | 0 <= i < j < |entries| :: Rank(NameOf(entries[i])) < Rank(NameOf(entries[j])))
  }

  lemma RankedWith(entries: seq<string>, name: string, value: Option<string>)
    requires '=' !in name && Ranked(entries, Rank(name))
    ensures Ranked(WithValue(entries, name, value), Rank(name) + 1)
  {
    if value.Some? {
      NameOfEntry(name, value.value);
    }
  }

  lemma PlatformNames(config: Config)
    ensures Ranked(Platform(config), 6) && 3 <= |Platform(config)| <= 6
  {
    RankedWith([], HTTP_PORT, Some(Decimal(config.port)));
    var first := WithValue([], HTTP_PORT, Some(Decimal(config.port)));
    RankedWith(first, PORT_ALIAS, Some(Decimal(config.port)));
    var second := WithValue(first, PORT_ALIAS, Some(Decimal(config.port)));
    RankedWith(second, DATA_DIR_NAME, Some(DATA_DIR));
    var issued := WithValue(second, DATA_DIR_NAME, Some(DATA_DIR));
    RankedWith(issued, HOSTNAME, config.hostname);
    var named := WithValue(issued, HOSTNAME, config.hostname);
    RankedWith(named, PUBLIC_IPV4, config.publicIpv4);
    RankedWith(WithValue(named, PUBLIC_IPV4, config.publicIpv4), EXTRA_PUBLIC_PORT, ExtraPort(config));
    assert issued ==
      [Entry(HTTP_PORT, Decimal(config.port)), Entry(PORT_ALIAS, Decimal(config.port)), Entry(DATA_DIR_NAME, DATA_DIR)];
  }

  /** Everything that is not the platform's is kept, in order and as it was. */
  lemma {:induction false} KeptTells(tenant: seq<string>)
    requires Named(tenant)
    ensures Named(Kept(tenant))
    ensures forall entry :: entry in Kept(tenant) <==> entry in tenant && !PlatformName(NameOf(entry))
    ensures DistinctNames(tenant) ==> DistinctNames(Kept(tenant))
  {
    if tenant != [] {
      var last := |tenant| - 1;
      var before := tenant[..last];
      KeptTells(before);
      assert tenant == before + [tenant[last]];
      if DistinctNames(tenant) {
        assert forall k | 0 <= k < last :: before[k] == tenant[k];
        forall k | 0 <= k < |Kept(before)|
          ensures NameOf(Kept(before)[k]) != NameOf(tenant[last])
        {
          assert Kept(before)[k] in before;
        }
      }
    }
  }

  /** What is kept of two lists is what is kept of the first and then of the second. */
  lemma {:induction false} KeptJoins(a: seq<string>, b: seq<string>)
    requires Named(a) && Named(b)
    ensures Kept(a + b) == Kept(a) + Kept(b)
  {
    if b == [] {
      assert a + b == a;
    } else {
      var last := |b| - 1;
      KeptJoins(a, b[..last]);
      assert (a + b)[..|a + b| - 1] == a + b[..last];
    }
  }

  lemma DefaultJoins(entries: seq<string>, name: string, value: string)
    requires Named(entries) && DistinctNames(entries) && '=' !in name
    ensures var more := WithDefault(entries, name, value);
            && Named(more) && DistinctNames(more) && Defines(more, name) && entries <= more && |more| <= |entries| + 1
            && forall k | |entries| <= k < |more| :: NameOf(more[k]) == name
  {
    NameOfEntry(name, value);
    var more := WithDefault(entries, name, value);
    forall k | 0 <= k < |entries|
      ensures IsNamed(entries[k], name) <==> NameOf(entries[k]) == name
    {
      IsNamedIsName(entries[k], name);
    }
    if !Defines(entries, name) {
      IsNamedIsName(Entry(name, value), name);
      assert IsNamed(more[|entries|], name);
    }
  }

  lemma OwnedTells(config: Config, tenant: seq<string>)
    requires Named(tenant) && DistinctNames(tenant)
    ensures var owned := Platform(config) + Kept(tenant);
            && Named(owned) && DistinctNames(owned) && |owned| <= 6 + |tenant|
            && forall k | 0 <= k < |owned| :: PlatformName(NameOf(owned[k])) <==> k < |Platform(config)|
  {
    PlatformNames(config);
    KeptTells(tenant);
    forall j | 0 <= j < |Kept(tenant)|
      ensures !PlatformName(NameOf(Kept(tenant)[j]))
    {
      assert Kept(tenant)[j] in Kept(tenant);
    }
  }

  lemma ShortNames()
    ensures !PlatformName("HOME") && !PlatformName("TMPDIR") && !PlatformName("PATH")
  {
    assert "HOME"[0] != PORT_ALIAS[0] && "PATH"[1] != PORT_ALIAS[1];
  }

  lemma StillDefines(entries: seq<string>, more: seq<string>, name: string)
    requires entries <= more && Defines(entries, name)
    ensures Defines(more, name)
  {
    var k :| 0 <= k < |entries| && IsNamed(entries[k], name);
    assert more[k] == entries[k];
  }

  ghost predicate IssuedFirst(entries: seq<string>, issued: nat) {
    && Named(entries) && DistinctNames(entries)
    && forall k | 0 <= k < |entries| :: PlatformName(NameOf(entries[k])) ==> k < issued
  }

  lemma DefaultTells(entries: seq<string>, issued: nat, name: string, value: string)
    requires IssuedFirst(entries, issued) && '=' !in name && !PlatformName(name)
    ensures var more := WithDefault(entries, name, value);
            IssuedFirst(more, issued) && entries <= more && |more| <= |entries| + 1 && Defines(more, name)
  {
    DefaultJoins(entries, name, value);
  }

  lemma DefaultsTell(owned: seq<string>, issued: nat)
    requires IssuedFirst(owned, issued)
    ensures var environment :=
              WithDefault(WithDefault(WithDefault(owned, "HOME", "/app"), "TMPDIR", "/tmp"), "PATH", "/usr/bin:/bin");
            && IssuedFirst(environment, issued) && owned <= environment && |environment| <= |owned| + 3
            && Defines(environment, "HOME") && Defines(environment, "TMPDIR") && Defines(environment, "PATH")
  {
    var home := WithDefault(owned, "HOME", "/app");
    var tmpdir := WithDefault(home, "TMPDIR", "/tmp");
    var environment := WithDefault(tmpdir, "PATH", "/usr/bin:/bin");
    ShortNames();
    DefaultTells(owned, issued, "HOME", "/app");
    DefaultTells(home, issued, "TMPDIR", "/tmp");
    DefaultTells(tmpdir, issued, "PATH", "/usr/bin:/bin");
    StillDefines(home, tmpdir, "HOME");
    StillDefines(tmpdir, environment, "HOME");
    StillDefines(tmpdir, environment, "TMPDIR");
  }

  /** At most as many entries as the array holds, no name twice, and first the platform's own, then the
    * tenant's that are not under a platform name, then defaults for what neither set. */
  lemma EnvironmentTells(config: Config, tenant: seq<string>)
    requires Named(tenant) && DistinctNames(tenant) && |tenant| <= CONFIG_MAX_TENANT_VARIABLES
    ensures var environment := Environment(config, tenant);
            && |environment| <= CONFIG_MAX_ENVIRONMENT_VARIABLES
            && Named(environment) && DistinctNames(environment)
            && Platform(config) + Kept(tenant) <= environment
            && Defines(environment, "HOME") && Defines(environment, "TMPDIR") && Defines(environment, "PATH")
            && forall k | 0 <= k < |environment| ::
                 PlatformName(NameOf(environment[k])) <==> k < |Platform(config)|
  {
    OwnedTells(config, tenant);
    var owned := Platform(config) + Kept(tenant);
    DefaultsTell(owned, |Platform(config)|);
  }

  lemma EntryTells(a: string, x: string, b: string, y: string)
    requires '=' !in a && '=' !in b
    ensures Entry(a, x) == Entry(b, y) <==> a == b && x == y
  {
    if Entry(a, x) == Entry(b, y) {
      NameOfEntry(a, x);
      NameOfEntry(b, y);
      assert Entry(a, x)[|a| + 1..] == x && Entry(b, y)[|b| + 1..] == y;
    }
  }

  lemma WithValueTells(entries: seq<string>, name: string, value: Option<string>, other: string, text: string)
    requires '=' !in name && '=' !in other
    ensures Entry(other, text) in WithValue(entries, name, value) <==>
              Entry(other, text) in entries || (other == name && value == Some(text))
  {
    if value.Some? {
      EntryTells(other, text, name, value.value);
    }
  }

  /** What the platform sets is what a reference to it reads as: for every key, the variable of that name and
    * the reference have the same value, or neither has one. */
  lemma ReferencesAgree(config: Config, key: string, value: string)
    requires '=' !in key
    ensures Entry(RUNTIME_PREFIX + key, value) in Platform(config) <==> ReferenceValue(config, key) == Some(Some(value))
  {
    var name, port := RUNTIME_PREFIX + key, Some(Decimal(config.port));
    var http := WithValue([], HTTP_PORT, port);
    var alias := WithValue(http, PORT_ALIAS, port);
    var issued := WithValue(alias, DATA_DIR_NAME, Some(DATA_DIR));
    assert issued ==
      [Entry(HTTP_PORT, Decimal(config.port)), Entry(PORT_ALIAS, Decimal(config.port)), Entry(DATA_DIR_NAME, DATA_DIR)];
    var named := WithValue(issued, HOSTNAME, config.hostname);
    var addressed := WithValue(named, PUBLIC_IPV4, config.publicIpv4);
    WithValueTells([], HTTP_PORT, port, name, value);
    WithValueTells(http, PORT_ALIAS, port, name, value);
    WithValueTells(alias, DATA_DIR_NAME, Some(DATA_DIR), name, value);
    WithValueTells(issued, HOSTNAME, config.hostname, name, value);
    WithValueTells(named, PUBLIC_IPV4, config.publicIpv4, name, value);
    WithValueTells(addressed, EXTRA_PUBLIC_PORT, ExtraPort(config), name, value);
    KeysArePrefixed(key);
  }

  lemma KeyOf(key: string, other: string, name: string)
    requires name == RUNTIME_PREFIX + other
    ensures RUNTIME_PREFIX + key == name <==> key == other
  {
    assert (RUNTIME_PREFIX + key)[|RUNTIME_PREFIX|..] == key;
    assert name[|RUNTIME_PREFIX|..] == other;
  }

  lemma KeysArePrefixed(key: string)
    ensures var name := RUNTIME_PREFIX + key;
            && (name == HTTP_PORT <==> key == "HTTP_PORT") && (name == HOSTNAME <==> key == "HOSTNAME")
            && (name == DATA_DIR_NAME <==> key == "DATA_DIR") && (name == PUBLIC_IPV4 <==> key == "PUBLIC_IPV4")
            && (name == EXTRA_PUBLIC_PORT <==> key == "EXTRA_PUBLIC_PORT") && name != PORT_ALIAS
  {
    KeyOf(key, "HTTP_PORT", HTTP_PORT);
    KeyOf(key, "HOSTNAME", HOSTNAME);
    KeyOf(key, "DATA_DIR", DATA_DIR_NAME);
    KeyOf(key, "PUBLIC_IPV4", PUBLIC_IPV4);
    KeyOf(key, "EXTRA_PUBLIC_PORT", EXTRA_PUBLIC_PORT);
    assert |PORT_ALIAS| < |RUNTIME_PREFIX|;
  }

  /** Where an entry under a name that is not the platform's comes from. */
  predicate Comes(tenant: seq<string>, entry: string, name: string, value: string)
    requires '=' in entry
  {
    NameOf(entry) == name ==> if Defines(tenant, name) then entry in tenant else entry == Entry(name, value)
  }

  lemma OwnedComes(config: Config, tenant: seq<string>, entry: string, name: string, value: string)
    requires Named(tenant) && DistinctNames(tenant) && '=' !in name && !PlatformName(name)
    ensures Named(Platform(config) + Kept(tenant))
    ensures Defines(Platform(config) + Kept(tenant), name) <==> Defines(tenant, name)
    ensures entry in Platform(config) + Kept(tenant) ==> Comes(tenant, entry, name, value)
  {
    var owned := Platform(config) + Kept(tenant);
    OwnedTells(config, tenant);
    KeptTells(tenant);
    forall k | 0 <= k < |owned|
      ensures IsNamed(owned[k], name) ==> owned[k] in tenant
    {
      IsNamedIsName(owned[k], name);
      assert k >= |Platform(config)| ==> owned[k] in Kept(tenant);
    }
    forall k | 0 <= k < |tenant|
      ensures IsNamed(tenant[k], name) ==> tenant[k] in owned
    {
      IsNamedIsName(tenant[k], name);
      assert tenant[k] in tenant;
    }
    SameNames(owned, tenant, name);
    if entry in owned {
      IsNamedIsName(entry, name);
    }
  }

  lemma SameNames(a: seq<string>, b: seq<string>, name: string)
    requires forall k | 0 <= k < |a| :: IsNamed(a[k], name) ==> a[k] in b
    requires forall k | 0 <= k < |b| :: IsNamed(b[k], name) ==> b[k] in a
    ensures Defines(a, name) <==> Defines(b, name)
  {
    if Defines(a, name) {
      var k :| 0 <= k < |a| && IsNamed(a[k], name);
      var j :| 0 <= j < |b| && b[j] == a[k];
      assert IsNamed(b[j], name);
    }
    if Defines(b, name) {
      var k :| 0 <= k < |b| && IsNamed(b[k], name);
      var j :| 0 <= j < |a| && a[j] == b[k];
      assert IsNamed(a[j], name);
    }
  }

  lemma DefaultUnder(entries: seq<string>, other: string, value: string, name: string, entry: string)
    requires Named(entries) && '=' !in other && '=' !in name
    ensures var more := WithDefault(entries, other, value);
            && (other != name ==> (Defines(more, name) <==> Defines(entries, name)))
            && (entry in more && '=' in entry && NameOf(entry) == name ==>
                  entry in entries || (other == name && !Defines(entries, name) && entry == Entry(name, value)))
  {
    NameOfEntry(other, value);
    IsNamedIsName(Entry(other, value), name);
    var more := WithDefault(entries, other, value);
    if Defines(entries, name) {
      StillDefines(entries, more, name);
    }
    if Defines(more, name) && other != name {
      var k :| 0 <= k < |more| && IsNamed(more[k], name);
      assert k < |entries|;
    }
  }

  /** Under HOME, TMPDIR and PATH the environment has the tenant's own value, or the default if it set none. */
  lemma DefaultsAreSet(config: Config, tenant: seq<string>, entry: string)
    requires Named(tenant) && DistinctNames(tenant) && |tenant| <= CONFIG_MAX_TENANT_VARIABLES
    requires entry in Environment(config, tenant)
    ensures '=' in entry
    ensures Comes(tenant, entry, "HOME", "/app") && Comes(tenant, entry, "TMPDIR", "/tmp")
    ensures Comes(tenant, entry, "PATH", "/usr/bin:/bin")
  {
    EnvironmentTells(config, tenant);
    ShortNames();
    ComesFrom(config, tenant, entry, "HOME", "/app");
    ComesFrom(config, tenant, entry, "TMPDIR", "/tmp");
    ComesFrom(config, tenant, entry, "PATH", "/usr/bin:/bin");
  }

  lemma ComesFrom(config: Config, tenant: seq<string>, entry: string, name: string, value: string)
    requires Named(tenant) && DistinctNames(tenant) && '=' in entry && entry in Environment(config, tenant)
    requires '=' !in name && !PlatformName(name)
    requires (name, value) in [("HOME", "/app"), ("TMPDIR", "/tmp"), ("PATH", "/usr/bin:/bin")]
    ensures Comes(tenant, entry, name, value)
  {
    var owned := Platform(config) + Kept(tenant);
    var home := WithDefault(owned, "HOME", "/app");
    var tmpdir := WithDefault(home, "TMPDIR", "/tmp");
    OwnedComes(config, tenant, entry, name, value);
    OwnedTells(config, tenant);
    DefaultJoins(owned, "HOME", "/app");
    DefaultJoins(home, "TMPDIR", "/tmp");
    DefaultUnder(owned, "HOME", "/app", name, entry);
    DefaultUnder(home, "TMPDIR", "/tmp", name, entry);
    DefaultUnder(tmpdir, "PATH", "/usr/bin:/bin", name, entry);
  }

  // ----- The array

  /** A null-terminated array of entries. */
  ghost predicate IsList(list: array<Option<string>>, entries: seq<string>)
    reads list
  {
    && |entries| < list.Length && list[|entries|] == None
    && forall k | 0 <= k < |entries| :: list[k] == Some(entries[k])
  }

  ghost predicate Starts(list: array<Option<string>>, entries: seq<string>)
    reads list
  {
    |entries| <= list.Length && forall k | 0 <= k < |entries| :: list[k] == Some(entries[k])
  }

  /** What `snprintf` leaves in a buffer of this size. */
  function Printed(size: nat, text: string): string
    requires size > 0
  {
    if |text| < size then text else text[..size - 1]
  }

  lemma {:induction false} DecimalLength(n: nat)
    ensures n <= MAX_PORT ==> |Decimal(n)| <= 5
    ensures n < 0x1_0000_0000 ==> |Decimal(n)| <= 10
  {
    if n < 0x1_0000_0000 {
      assert |Decimal(n)| <= 10 && (n <= MAX_PORT ==> |Decimal(n)| <= 5) by {
        DecimalDigits(n, 10);
        if n <= MAX_PORT {
          DecimalDigits(n, 5);
        }
      }
    }
  }

  function Power10(digits: nat): nat {
    if digits == 0 then 1 else 10 * Power10(digits - 1)
  }

  lemma {:induction false} DecimalDigits(n: nat, digits: nat)
    requires digits > 0 && n < Power10(digits)
    ensures |Decimal(n)| <= digits
  {
    if n >= 10 {
      DecimalDigits(n / 10, digits - 1);
    }
  }

  /** What the parser has checked of a configuration. */
  predicate Parsed(config: Config) {
    && config.port <= MAX_PORT && config.extraPublicPort <= MAX_PORT
    && (config.hostname.Some? ==> |config.hostname.value| <= CONFIG_MAX_HOSTNAME)
    && (config.publicIpv4.Some? ==> |config.publicIpv4.value| <= CONFIG_MAX_ADDRESS)
  }

  /** The tenant's own `PORT`, and `platform_owned_name`. */
  method ReservedName(entry: string) returns (reserved: bool)
    requires '=' in entry
    ensures reserved <==> PlatformName(NameOf(entry))
  {
    IsNamedIsName(entry, PORT_ALIAS);
    IsNamedIsName(entry, HTTP_PORT);
    IsNamedIsName(entry, HOSTNAME);
    IsNamedIsName(entry, DATA_DIR_NAME);
    IsNamedIsName(entry, PUBLIC_IPV4);
    IsNamedIsName(entry, EXTRA_PUBLIC_PORT);
    if IsNamed(entry, PORT_ALIAS) {
      return true;
    }
    reserved := IsNamed(entry, HTTP_PORT) || IsNamed(entry, HOSTNAME) || IsNamed(entry, DATA_DIR_NAME)
             || IsNamed(entry, PUBLIC_IPV4) || IsNamed(entry, EXTRA_PUBLIC_PORT);
  }

  method Put(environment: array<Option<string>>, count: nat, ghost entries: seq<string>, entry: string)
    returns (more: nat)
    requires count == |entries| < environment.Length && Starts(environment, entries)
    modifies environment
    ensures more == count + 1 && Starts(environment, entries + [entry])
  {
    environment[count] := Some(entry);
    more := count + 1;
  }

  method Issue(environment: array<Option<string>>, count: nat, ghost entries: seq<string>,
               name: string, room: nat, value: Option<string>)
    returns (more: nat)
    requires count == |entries| < environment.Length && Starts(environment, entries)
    requires value.Some? ==> |Entry(name, value.value)| < room
    modifies environment
    ensures more == |WithValue(entries, name, value)| && Starts(environment, WithValue(entries, name, value))
  {
    if value.None? {
      return count;
    }
    more := Put(environment, count, entries, Printed(room, Entry(name, value.value)));
  }

  method IssuePlatform(config: Config, environment: array<Option<string>>) returns (count: nat)
    requires Parsed(config) && environment.Length == CONFIG_MAX_ENVIRONMENT_VARIABLES + 1
    modifies environment
    ensures count == |Platform(config)| <= 6 && Starts(environment, Platform(config))
  {
    DecimalLength(config.port);
    DecimalLength(config.extraPublicPort);
    environment[0] := Some(Printed(|HTTP_PORT| + 7, Entry(HTTP_PORT, Decimal(config.port))));
    environment[1] := Some(Printed(|PORT_ALIAS| + 7, Entry(PORT_ALIAS, Decimal(config.port))));
    environment[2] := Some(Entry(DATA_DIR_NAME, DATA_DIR));
    ghost var issued :=
      [Entry(HTTP_PORT, Decimal(config.port)), Entry(PORT_ALIAS, Decimal(config.port)), Entry(DATA_DIR_NAME, DATA_DIR)];
    count := Issue(environment, 3, issued, HOSTNAME, |HOSTNAME| + 2 + CONFIG_MAX_HOSTNAME, config.hostname);
    ghost var named := WithValue(issued, HOSTNAME, config.hostname);
    count := Issue(environment, count, named, PUBLIC_IPV4, |PUBLIC_IPV4| + 2 + CONFIG_MAX_ADDRESS, config.publicIpv4);
    ghost var addressed := WithValue(named, PUBLIC_IPV4, config.publicIpv4);
    count := Issue(environment, count, addressed, EXTRA_PUBLIC_PORT, |EXTRA_PUBLIC_PORT| + 12, ExtraPort(config));
  }

  method KeepTenant(environment: array<Option<string>>, issued: nat, ghost platform: seq<string>, tenant: seq<string>)
    returns (count: nat)
    requires issued == |platform| && |platform| + |tenant| < environment.Length && Starts(environment, platform)
    requires Named(tenant)
    modifies environment
    ensures count == |platform + Kept(tenant)| && Starts(environment, platform + Kept(tenant))
  {
    count := issued;
    for index := 0 to |tenant|
      invariant count == |platform + Kept(tenant[..index])| && Starts(environment, platform + Kept(tenant[..index]))
    {
      assert tenant[..index + 1][..index] == tenant[..index];
      var reserved := ReservedName(tenant[index]);
      if reserved {
        continue;
      }
      count := Put(environment, count, platform + Kept(tenant[..index]), tenant[index]);
      assert platform + Kept(tenant[..index + 1]) == platform + Kept(tenant[..index]) + [tenant[index]];
    }
    assert tenant[..|tenant|] == tenant;
  }

  method AddDefault(environment: array<Option<string>>, count: nat, ghost entries: seq<string>, name: string, value: string)
    returns (more: nat)
    requires count == |entries| < environment.Length && Starts(environment, entries)
    modifies environment
    ensures more == |WithDefault(entries, name, value)| <= count + 1
    ensures Starts(environment, WithDefault(entries, name, value))
  {
    for index := 0 to count
      invariant forall k | 0 <= k < index :: !IsNamed(entries[k], name)
    {
      if IsNamed(environment[index].value, name) {
        return count;
      }
    }
    more := Put(environment, count, entries, Entry(name, value));
  }

  method BuildEnvironment(config: Config, tenant: seq<string>) returns (environment: array<Option<string>>)
    requires Parsed(config)
    requires Named(tenant) && |tenant| <= CONFIG_MAX_TENANT_VARIABLES
    ensures fresh(environment) && environment.Length == CONFIG_MAX_ENVIRONMENT_VARIABLES + 1
    ensures IsList(environment, Environment(config, tenant))
  {
    environment := new Option<string>[CONFIG_MAX_ENVIRONMENT_VARIABLES + 1](_ => None);
    var count := IssuePlatform(config, environment);
    count := KeepTenant(environment, count, Platform(config), tenant);
    ghost var owned := Platform(config) + Kept(tenant);
    count := AddDefault(environment, count, owned, "HOME", "/app");
    ghost var home := WithDefault(owned, "HOME", "/app");
    count := AddDefault(environment, count, home, "TMPDIR", "/tmp");
    count := AddDefault(environment, count, WithDefault(home, "TMPDIR", "/tmp"), "PATH", "/usr/bin:/bin");
    environment[count] := None;
  }
}
