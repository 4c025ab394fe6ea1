/**
 The merge of the plugin's settings into the host's configuration, and their
 removal (integrations/alga-openclaw-plugin/install.js).  A configuration is the
 property map of the parsed JSON document; the functions return it as the script
 leaves the object.
 */
module PluginConfig {

  import opened Common

  type Props = map<string, Json>

  /** A JavaScript value.  An array is an object too: the script may set named
      properties on one. */
  datatype Json =
    | Null
    | Bool(b: bool)
    | Number(n: int)
    | Text(s: string)
    | Array(items: seq<Json>, props: Props)
    | Object(props: Props)

  const PLUGIN := "alga"
  const PLUGINS := "plugins"
  const ENTRIES := "entries"
  const TOOLS := "tools"
  const ALSO_ALLOW := "alsoAllow"
  const CHANNELS := "channels"
  const SERVER_URL := "serverUrl"
  const TOKEN := "token"
  const ALLOW_FROM := "allowFrom"
  const ENABLED := "enabled"
  const TOOL_PREFIX := "alga_"

  /** The settings passed in; an empty string or a missing list is not set.  The
      users are the trimmed, non-empty parts of the comma-separated option. */
  datatype Values = Values(serverUrl: string, token: string, allowedUsers: Option<seq<string>>)

  // ------------------------------------------------------------ JavaScript bits

  predicate Truthy(j: Json) {
    match j
    case Null => false
    case Bool(b) => b
    case Number(n) => n != 0
    case Text(s) => s != ""
    case Array(_, _) => true
    case Object(_) => true
  }

  /** typeof j === "object" for a truthy j. */
  predicate IsObject(j: Json) { j.Array? || j.Object? }

  function Get(p: Props, k: string): Option<Json> { if k in p then Some(p[k]) else None }

  function WithProps(j: Json, p: Props): Json
    requires IsObject(j)
  {
    match j
    case Array(items, _) => Array(items, p)
    case Object(_) => Object(p)
  }

  /** The object stored under a key, or the empty one that replaces anything that
      is not an object. */
  function ObjectAt(p: Props, k: string): Json {
    if k in p && IsObject(p[k]) then p[k] else Object(map[])
  }

  predicate HasObject(p: Props, k: string) { k in p && IsObject(p[k]) }

  /** The properties a spread copies, less the indices of arrays and strings. */
  function SpreadProps(j: Option<Json>): Props {
    if j.Some? && IsObject(j.value) then j.value.props else map[]
  }

  function ItemsOf(j: Option<Json>): seq<Json> {
    if j.Some? && j.value.Array? then j.value.items else []
  }

  // ------------------------------------------------------------------ the merge

  /** Appends the names that are not in the list yet. */
  function Merged(have: seq<Json>, names: seq<string>): seq<Json>
    decreases |names|
  {
    if names == [] then have
    else Merged(if Text(names[0]) in have then have else have + [Text(names[0])], names[1..])
  }

  function WithPlugin(config: Props): Props {
    var plugins := ObjectAt(config, PLUGINS);
    var entries := ObjectAt(plugins.props, ENTRIES);
    var entry := Get(entries.props, PLUGIN);
    var entries' :=
      if entry.Some? && IsObject(entry.value) && Get(entry.value.props, ENABLED) == Some(Bool(true)) then entries
      else WithProps(entries, entries.props[PLUGIN := Object(SpreadProps(entry)[ENABLED := Bool(true)])]);
    config[PLUGINS := WithProps(plugins, plugins.props[ENTRIES := entries'])]
  }

  /** The list is written back when anything changed so far. */
  function WithTools(config: Props, names: seq<string>, changed: bool): Props {
    var tools := ObjectAt(config, TOOLS);
    var have := ItemsOf(Get(tools.props, ALSO_ALLOW));
    var merged := Merged(have, names);
    if changed || !HasObject(config, TOOLS) || merged != have
    then config[TOOLS := WithProps(tools, tools.props[ALSO_ALLOW := Array(merged, map[])])]
    else config
  }

  function Put(p: Props, k: string, s: string): Props { if s == "" then p else p[k := Text(s)] }

  function WithUsers(p: Props, users: Option<seq<string>>): Props {
    if users.None? then p
    else
      var have := ItemsOf(Get(p, ALLOW_FROM));
      var merged := Merged(have, users.value);
      if merged == have then p else p[ALLOW_FROM := Array(merged, map[])]
  }

  function ChannelProps(p: Props, v: Values): Props {
    WithUsers(Put(Put(p, SERVER_URL, v.serverUrl), TOKEN, v.token), v.allowedUsers)[ENABLED := Bool(true)]
  }

  function WithChannel(config: Props, v: Values): Props {
    var channels := ObjectAt(config, CHANNELS);
    var channel := ObjectAt(channels.props, PLUGIN);
    var channel' := WithProps(channel, ChannelProps(channel.props, v));
    config[CHANNELS := WithProps(channels, channels.props[PLUGIN := channel'])]
  }

  /** What the merge makes of a configuration. */
  function Ensured(config: Props, names: seq<string>, v: Values): Props {
    var c1 := WithPlugin(config);
    WithChannel(WithTools(c1, names, c1 != config), v)
  }

  // ---------------------------------------------------------------- the script

  /** The loop that pushes missing names. */
  method Append(have: seq<Json>, names: seq<string>) returns (list: seq<Json>, did: bool)
    ensures list == Merged(have, names)
    ensures did <==> list != have
  {
    list, did := have, false;
    var i := 0;
    while i < |names|
      invariant 0 <= i <= |names|
      invariant Merged(list, names[i..]) == Merged(have, names)
      invariant have <= list && (did <==> |list| > |have|)
    {
      assert names[i..][1..] == names[i+1..];
      if Text(names[i]) !in list {
        list := list + [Text(names[i])];
        did := true;
      }
      i := i + 1;
    }
    assert names[i..] == [];
  }

  method EnsurePlugin(config: Props) returns (c: Props, changed: bool)
    ensures c == WithPlugin(config)
    ensures changed <==> c != config
  {
    c, changed := config, false;
    if !(PLUGINS in c && Truthy(c[PLUGINS])) || !IsObject(c[PLUGINS]) {
      c := c[PLUGINS := Object(map[])];
      changed := true;
    }
    var plugins := c[PLUGINS];
    if !(ENTRIES in plugins.props && Truthy(plugins.props[ENTRIES])) || !IsObject(plugins.props[ENTRIES]) {
      plugins := WithProps(plugins, plugins.props[ENTRIES := Object(map[])]);
      changed := true;
    }
    var entries := plugins.props[ENTRIES];
    var entry := Get(entries.props, PLUGIN);
    if entry.None? || !Truthy(entry.value) || !IsObject(entry.value) ||
        Get(entry.value.props, ENABLED) != Some(Bool(true)) {
      entries := WithProps(entries, entries.props[PLUGIN := Object(SpreadProps(entry)[ENABLED := Bool(true)])]);
      changed := true;
    }
    ghost var p0 := ObjectAt(config, PLUGINS);
    ghost var e0 := ObjectAt(p0.props, ENTRIES);
    assert plugins.props[ENTRIES := entries] == p0.props[ENTRIES := entries];
    plugins := WithProps(plugins, plugins.props[ENTRIES := entries]);
    assert c[PLUGINS := plugins] == config[PLUGINS := plugins];
    c := c[PLUGINS := plugins];
    assert !changed ==> p0.props[ENTRIES := e0] == p0.props && config[PLUGINS := p0] == config;
    assert changed && HasObject(config, PLUGINS) && HasObject(p0.props, ENTRIES) ==> entries != e0;
  }

  method EnsureTools(config: Props, names: seq<string>, before: bool) returns (c: Props, changed: bool)
    ensures c == WithTools(config, names, before)
    ensures changed <==> before || c != config
  {
    c, changed := config, before;
    if !(TOOLS in c && Truthy(c[TOOLS])) || !IsObject(c[TOOLS]) {
      c := c[TOOLS := Object(map[])];
      changed := true;
    }
    var tools := c[TOOLS];
    var have := ItemsOf(Get(tools.props, ALSO_ALLOW));
    var list, did := Append(have, names);
    if did {
      changed := true;
    }
    if changed {
      c := c[TOOLS := WithProps(tools, tools.props[ALSO_ALLOW := Array(list, map[])])];
    }
    if !before && HasObject(config, TOOLS) && did {
      assert ItemsOf(Get(c[TOOLS].props, ALSO_ALLOW)) != ItemsOf(Get(config[TOOLS].props, ALSO_ALLOW));
    }
  }

  method EnsureChannel(config: Props, v: Values) returns (c: Props, changed: bool)
    ensures c == WithChannel(config, v)
    ensures changed <==> c != config
  {
    c, changed := config, false;
    if !(CHANNELS in c && Truthy(c[CHANNELS])) || !IsObject(c[CHANNELS]) {
      c := c[CHANNELS := Object(map[])];
      changed := true;
    }
    var channels := c[CHANNELS];
    if !(PLUGIN in channels.props && Truthy(channels.props[PLUGIN])) || !IsObject(channels.props[PLUGIN]) {
      channels := WithProps(channels, channels.props[PLUGIN := Object(map[])]);
      changed := true;
    }
    var channel := channels.props[PLUGIN];
    var props, did := EnsureProps(channel.props, v);
    if did {
      changed := true;
    }
    ghost var c0 := ObjectAt(config, CHANNELS);
    ghost var ch0 := ObjectAt(c0.props, PLUGIN);
    channel := WithProps(channel, props);
    assert channels.props[PLUGIN := channel] == c0.props[PLUGIN := channel];
    channels := WithProps(channels, channels.props[PLUGIN := channel]);
    assert c[CHANNELS := channels] == config[CHANNELS := channels];
    c := c[CHANNELS := channels];
    assert !changed ==> c0.props[PLUGIN := ch0] == c0.props && config[CHANNELS := c0] == config;
    assert changed && HasObject(config, CHANNELS) && HasObject(c0.props, PLUGIN) ==> c[CHANNELS].props[PLUGIN] != ch0;
  }

  /** The keys of a channel are four different ones. */
  lemma {:induction false} ChannelKeys()
    ensures SERVER_URL != TOKEN && SERVER_URL != ALLOW_FROM && SERVER_URL != ENABLED
    ensures TOKEN != ALLOW_FROM && TOKEN != ENABLED && ALLOW_FROM != ENABLED
  {
    assert |SERVER_URL| == 9 && |TOKEN| == 5 && |ALLOW_FROM| == 9 && |ENABLED| == 7;
    assert SERVER_URL[0] != ALLOW_FROM[0];
  }

  ghost predicate Differs(p: Props, q: Props, k: string) { Get(p, k) != Get(q, k) }

  method EnsureText(p: Props, k: string, s: string) returns (q: Props, changed: bool)
    ensures q == Put(p, k, s)
    ensures changed <==> Differs(p, q, k)
  {
    q, changed := p, false;
    if s != "" && Get(q, k) != Some(Text(s)) {
      q := q[k := Text(s)];
      changed := true;
    }
  }

  method EnsureUsers(p: Props, users: Option<seq<string>>) returns (q: Props, changed: bool)
    ensures q == WithUsers(p, users)
    ensures changed <==> Differs(p, q, ALLOW_FROM)
  {
    q, changed := p, false;
    if users.Some? {
      var have := ItemsOf(Get(q, ALLOW_FROM));
      var list, did := Append(have, users.value);
      if did || |list| != |have| {
        q := q[ALLOW_FROM := Array(list, map[])];
        changed := true;
        assert ItemsOf(Get(q, ALLOW_FROM)) != ItemsOf(Get(p, ALLOW_FROM));
      }
    }
  }

  method EnsureProps(p: Props, v: Values) returns (q: Props, changed: bool)
    ensures q == ChannelProps(p, v)
    ensures changed <==> q != p
  {
    ChannelKeys();
    var c1, c2, c3;
    q, c1 := EnsureText(p, SERVER_URL, v.serverUrl);
    q, c2 := EnsureText(q, TOKEN, v.token);
    q, c3 := EnsureUsers(q, v.allowedUsers);
    changed := c1 || c2 || c3;
    if Get(q, ENABLED) != Some(Bool(true)) {
      changed := true;
    }
    q := q[ENABLED := Bool(true)];
    assert changed ==>
        Differs(p, q, SERVER_URL) || Differs(p, q, TOKEN) || Differs(p, q, ALLOW_FROM) || Differs(p, q, ENABLED);
  }

  /** ensureAlgaConfig: the flag tells exactly whether the configuration changed. */
  method EnsureAlgaConfig(config: Props, names: seq<string>, v: Values) returns (c: Props, changed: bool)
    ensures c == Ensured(config, names, v)
    ensures changed <==> c != config
  {
    c, changed := EnsurePlugin(config);
    TopKeys();
    c, changed := EnsureTools(c, names, changed);
    var did;
    c, did := EnsureChannel(c, v);
    changed := changed || did;
    assert changed ==> Differs(config, c, PLUGINS) || Differs(config, c, TOOLS) || Differs(config, c, CHANNELS);
  }

  lemma {:induction false} TopKeys()
    ensures PLUGINS != TOOLS && PLUGINS != CHANNELS && TOOLS != CHANNELS
  {
    assert |PLUGINS| == 7 && |TOOLS| == 5 && |CHANNELS| == 8;
  }

  // ------------------------------------------------------------------ idempotence

  lemma {:induction false} MergedSpec(have: seq<Json>, names: seq<string>)
    ensures have <= Merged(have, names)
    ensures forall n :: n in names ==> Text(n) in Merged(have, names)
    decreases |names|
  {
    if names != [] {
      var next := if Text(names[0]) in have then have else have + [Text(names[0])];
      MergedSpec(next, names[1..]);
      assert names == [names[0]] + names[1..];
      assert Text(names[0]) in next;
      assert forall j :: j in next ==> j in Merged(next, names[1..]);
    }
  }

  lemma {:induction false} MergedFixpoint(have: seq<Json>, names: seq<string>)
    requires forall n :: n in names ==> Text(n) in have
    ensures Merged(have, names) == have
    decreases |names|
  {
    if names != [] {
      assert names[0] in names;
      MergedFixpoint(have, names[1..]);
    }
  }

  lemma {:induction false} MergedTwice(have: seq<Json>, names: seq<string>)
    ensures Merged(Merged(have, names), names) == Merged(have, names)
  {
    MergedSpec(have, names);
    MergedFixpoint(Merged(have, names), names);
  }

  /** What is appended is new: no name twice, none that was there. */
  lemma {:induction false} MergedAddsNoDuplicates(have: seq<Json>, names: seq<string>, i: nat, j: nat)
    requires |have| <= j < |Merged(have, names)| && i < j
    ensures Merged(have, names)[i] != Merged(have, names)[j]
    ensures exists n :: n in names && Merged(have, names)[j] == Text(n)
    decreases |names|
  {
    var next := if Text(names[0]) in have then have else have + [Text(names[0])];
    var m := Merged(have, names);
    MergedSpec(next, names[1..]);
    if j < |next| {
      assert m[j] == next[j] == Text(names[0]) && m[i] == next[i];
      assert i < |have| ==> have[i] in have;
    } else {
      MergedAddsNoDuplicates(next, names[1..], i, j);
      var n :| n in names[1..] && m[j] == Text(n);
      assert n in names;
    }
  }

  lemma {:induction false} PluginTwice(config: Props)
    ensures WithPlugin(WithPlugin(config)) == WithPlugin(config)
  {
    var c := WithPlugin(config);
    var plugins := c[PLUGINS];
    var entries := plugins.props[ENTRIES];
    assert ObjectAt(c, PLUGINS) == plugins && ObjectAt(plugins.props, ENTRIES) == entries;
    assert plugins.props[ENTRIES := entries] == plugins.props;
  }

  lemma {:induction false} ToolsTwice(config: Props, names: seq<string>, changed: bool)
    ensures WithTools(WithTools(config, names, changed), names, false) == WithTools(config, names, changed)
  {
    MergedTwice(ItemsOf(Get(ObjectAt(config, TOOLS).props, ALSO_ALLOW)), names);
  }

  lemma {:induction false} UsersTwice(p: Props, users: Option<seq<string>>)
    ensures WithUsers(WithUsers(p, users), users) == WithUsers(p, users)
  {
    if users.Some? {
      MergedTwice(ItemsOf(Get(p, ALLOW_FROM)), users.value);
    }
  }

  lemma {:induction false} ChannelPropsTwice(p: Props, v: Values)
    ensures ChannelProps(ChannelProps(p, v), v) == ChannelProps(p, v)
  {
    ChannelKeys();
    var q := ChannelProps(p, v);
    var base := Put(Put(p, SERVER_URL, v.serverUrl), TOKEN, v.token);
    UsersTwice(base, v.allowedUsers);
    assert Put(Put(q, SERVER_URL, v.serverUrl), TOKEN, v.token) == q;
    if v.allowedUsers.Some? {
      MergedTwice(ItemsOf(Get(base, ALLOW_FROM)), v.allowedUsers.value);
      assert Get(q, ALLOW_FROM) == Get(WithUsers(base, v.allowedUsers), ALLOW_FROM);
    }
    assert WithUsers(q, v.allowedUsers) == q;
  }

  lemma {:induction false} ChannelTwice(config: Props, v: Values)
    ensures WithChannel(WithChannel(config, v), v) == WithChannel(config, v)
  {
    var c := WithChannel(config, v);
    var channels := c[CHANNELS];
    var channel := channels.props[PLUGIN];
    ChannelPropsTwice(ObjectAt(ObjectAt(config, CHANNELS).props, PLUGIN).props, v);
    assert ObjectAt(c, CHANNELS) == channels && ObjectAt(channels.props, PLUGIN) == channel;
    assert channels.props[PLUGIN := channel] == channels.props;
  }

  /** A stage only looks at its own key. */
  lemma {:induction false} StagesApart(config: Props, other: Props, names: seq<string>, v: Values)
    ensures Get(config, PLUGINS) == Get(other, PLUGINS) ==> WithPlugin(config)[PLUGINS] == WithPlugin(other)[PLUGINS]
    ensures Get(config, CHANNELS) == Get(other, CHANNELS) ==>
              WithChannel(config, v)[CHANNELS] == WithChannel(other, v)[CHANNELS]
    ensures Get(config, TOOLS) == Get(other, TOOLS) ==>
              Get(WithTools(config, names, false), TOOLS) == Get(WithTools(other, names, false), TOOLS)
  {
  }

  /** The second run changes nothing, so it reports no change. */
  lemma {:induction false} EnsureIdempotent(config: Props, names: seq<string>, v: Values)
    ensures Ensured(Ensured(config, names, v), names, v) == Ensured(config, names, v)
  {
    TopKeys();
    var c1 := WithPlugin(config);
    var c2 := WithTools(c1, names, c1 != config);
    var c := WithChannel(c2, v);
    PluginTwice(config);
    StagesApart(c, c1, names, v);
    assert WithPlugin(c) == c;
    ToolsTwice(c1, names, c1 != config);
    StagesApart(c, c2, names, v);
    assert WithTools(c, names, false) == c;
    ChannelTwice(c2, v);
  }

  function PluginsOf(config: Props): Props { ObjectAt(config, PLUGINS).props }

  function EntriesOf(config: Props): Props { ObjectAt(PluginsOf(config), ENTRIES).props }

  function ToolsOf(config: Props): Props { ObjectAt(config, TOOLS).props }

  function AlsoAllow(config: Props): Option<Json> { Get(ToolsOf(config), ALSO_ALLOW) }

  function ChannelsOf(config: Props): Props { ObjectAt(config, CHANNELS).props }

  /** The plugin's own channel. */
  function ChannelOf(config: Props): Props { ObjectAt(ChannelsOf(config), PLUGIN).props }

  /** Nothing of others differs at key `k`: no top-level key, no key of `plugins`,
      of its entries, of `tools` and of `channels`, beside the plugin's own. */
  ghost predicate OthersKept(a: Props, b: Props, k: string) {
    && (k != PLUGINS && k != TOOLS && k != CHANNELS ==> Get(a, k) == Get(b, k))
    && (k != ENTRIES ==> Get(PluginsOf(a), k) == Get(PluginsOf(b), k))
    && (k != PLUGIN ==> Get(EntriesOf(a), k) == Get(EntriesOf(b), k))
    && (k != ALSO_ALLOW ==> Get(ToolsOf(a), k) == Get(ToolsOf(b), k))
    && (k != PLUGIN ==> Get(ChannelsOf(a), k) == Get(ChannelsOf(b), k))
  }

  /** The three stages of the merge each own one top-level key. */
  lemma {:induction false} EnsureByStage(config: Props, names: seq<string>, v: Values)
    ensures var c1 := WithPlugin(config);
            var c := Ensured(config, names, v);
            && Get(c, PLUGINS) == Get(c1, PLUGINS)
            && Get(c, TOOLS) == Get(WithTools(c1, names, c1 != config), TOOLS)
            && Get(c1, TOOLS) == Get(config, TOOLS)
            && Get(c, CHANNELS) == Get(WithChannel(config, v), CHANNELS)
            && forall k :: k != PLUGINS && k != TOOLS && k != CHANNELS ==> Get(c, k) == Get(config, k)
  {
    TopKeys();
  }

  lemma {:induction false} SameContainer(a: Props, b: Props)
    ensures Get(a, PLUGINS) == Get(b, PLUGINS) ==> PluginsOf(a) == PluginsOf(b) && EntriesOf(a) == EntriesOf(b)
    ensures Get(a, TOOLS) == Get(b, TOOLS) ==> ToolsOf(a) == ToolsOf(b) && AlsoAllow(a) == AlsoAllow(b)
    ensures Get(a, CHANNELS) == Get(b, CHANNELS) ==> ChannelsOf(a) == ChannelsOf(b)
  {
  }

  /** Settings of others stay, at every key; and the allow-list only grows at its
      end. */
  lemma {:induction false} EnsurePreserves(config: Props, names: seq<string>, v: Values, k: string)
    ensures var c := Ensured(config, names, v);
            && OthersKept(c, config, k)
            && ItemsOf(AlsoAllow(config)) <= ItemsOf(AlsoAllow(c))
            && forall n :: n in names ==> Text(n) in ItemsOf(AlsoAllow(c))
  {
    var c, c1 := Ensured(config, names, v), WithPlugin(config);
    EnsureByStage(config, names, v);
    KeepsEntries(config, k);
    KeepsTools(c1, names, c1 != config, k);
    SameContainer(c, c1);
    SameContainer(c, WithTools(c1, names, c1 != config));
    SameContainer(c1, config);
  }

  lemma {:induction false} KeepsEntries(config: Props, k: string)
    ensures k != PLUGIN ==> Get(EntriesOf(WithPlugin(config)), k) == Get(EntriesOf(config), k)
    ensures k != ENTRIES ==> Get(PluginsOf(WithPlugin(config)), k) == Get(PluginsOf(config), k)
  {
  }

  lemma {:induction false} KeepsTools(config: Props, names: seq<string>, changed: bool, k: string)
    ensures var c := WithTools(config, names, changed);
            && ItemsOf(AlsoAllow(config)) <= ItemsOf(AlsoAllow(c))
            && (forall n :: n in names ==> Text(n) in ItemsOf(AlsoAllow(c)))
            && (k != ALSO_ALLOW ==> Get(ToolsOf(c), k) == Get(ToolsOf(config), k))
  {
    MergedSpec(ItemsOf(AlsoAllow(config)), names);
  }

  lemma {:induction false} OwnEntryKept(config: Props, k: string)
    ensures Get(SpreadProps(Get(EntriesOf(WithPlugin(config)), PLUGIN)), k) ==
              if k == ENABLED then Some(Bool(true)) else Get(SpreadProps(Get(EntriesOf(config), PLUGIN)), k)
  {
  }

  lemma {:induction false} ChannelPropsByKey(p: Props, v: Values, k: string)
    ensures Get(ChannelProps(p, v), k) ==
              if k == ENABLED then Some(Bool(true))
              else if k == SERVER_URL && v.serverUrl != "" then Some(Text(v.serverUrl))
              else if k == TOKEN && v.token != "" then Some(Text(v.token))
              else if k == ALLOW_FROM then Get(WithUsers(p, v.allowedUsers), k)
              else Get(p, k)
  {
    ChannelKeys();
  }

  /** The plugin's own entry and channel keep what the script does not set. */
  lemma {:induction false} EnsureKeepsOwn(config: Props, names: seq<string>, v: Values, k: string)
    ensures var c := Ensured(config, names, v);
            && Get(SpreadProps(Get(EntriesOf(c), PLUGIN)), k) ==
                 (if k == ENABLED then Some(Bool(true)) else Get(SpreadProps(Get(EntriesOf(config), PLUGIN)), k))
            && Get(ChannelOf(c), k) ==
                 (if k == ENABLED then Some(Bool(true))
                  else if k == SERVER_URL && v.serverUrl != "" then Some(Text(v.serverUrl))
                  else if k == TOKEN && v.token != "" then Some(Text(v.token))
                  else if k == ALLOW_FROM then Get(WithUsers(ChannelOf(config), v.allowedUsers), k)
                  else Get(ChannelOf(config), k))
  {
    EnsureByStage(config, names, v);
    OwnEntryKept(config, k);
    assert EntriesOf(Ensured(config, names, v)) == EntriesOf(WithPlugin(config));
    assert ChannelOf(Ensured(config, names, v)) == ChannelProps(ChannelOf(config), v);
    ChannelPropsByKey(ChannelOf(config), v, k);
  }

  lemma {:induction false} UsersOnlyGrow(config: Props, names: seq<string>, v: Values)
    ensures var c := Ensured(config, names, v);
            && ItemsOf(Get(ChannelOf(config), ALLOW_FROM)) <= ItemsOf(Get(ChannelOf(c), ALLOW_FROM))
            && (v.allowedUsers.None? ==> Get(ChannelOf(c), ALLOW_FROM) == Get(ChannelOf(config), ALLOW_FROM))
            && (v.allowedUsers.Some? ==>
                  forall u :: u in v.allowedUsers.value ==> Text(u) in ItemsOf(Get(ChannelOf(c), ALLOW_FROM)))
  {
    ChannelKeys();
    EnsureKeepsOwn(config, names, v, ALLOW_FROM);
    if v.allowedUsers.Some? {
      MergedSpec(ItemsOf(Get(ChannelOf(config), ALLOW_FROM)), v.allowedUsers.value);
    }
  }

  // ------------------------------------------------------ what a merge appends

  ghost predicate FirstName(names: seq<string>, i: int) {
    0 <= i < |names| && forall k :: 0 <= k < i ==> names[k] != names[i]
  }

  /** `now` is `have` followed by exactly the names that were missing, in order,
      each once; `from` gives their positions among the names. */
  ghost predicate Appends(have: seq<Json>, names: seq<string>, now: seq<Json>, from: seq<int>) {
    && |now| == |have| + |from| && now[..|have|] == have
    && (forall k :: 0 <= k < |from| ==>
          FirstName(names, from[k]) && Text(names[from[k]]) !in have && now[|have|+k] == Text(names[from[k]]))
    && (forall k, l :: 0 <= k < l < |from| ==> from[k] < from[l])
    && (forall i :: FirstName(names, i) && Text(names[i]) !in have ==> i in from)
  }

  lemma {:induction false} MergedSnoc(have: seq<Json>, names: seq<string>, n: string)
    ensures var m := Merged(have, names);
            Merged(have, names + [n]) == if Text(n) in m then m else m + [Text(n)]
    decreases |names|
  {
    var longer := names + [n];
    if names == [] {
      assert longer[1..] == [];
    } else {
      assert longer[0] == names[0] && longer[1..] == names[1..] + [n];
      MergedSnoc(if Text(names[0]) in have then have else have + [Text(names[0])], names[1..], n);
    }
  }

  lemma {:induction false} FirstNameSnoc(names: seq<string>, n: string, i: int)
    ensures FirstName(names + [n], i) <==> FirstName(names, i) || (i == |names| && n !in names)
  {
    var longer := names + [n];
    assert forall k :: 0 <= k < |names| ==> longer[k] == names[k];
    assert longer[|names|] == n;
  }

  /** One more name, which is among the items already. */
  lemma {:induction false} AppendsSame(have: seq<Json>, names: seq<string>, now: seq<Json>, from: seq<int>, n: string)
    requires Appends(have, names, now, from) && (Text(n) in have || n in names)
    ensures Appends(have, names + [n], now, from)
  {
    forall i ensures FirstName(names + [n], i) <==> FirstName(names, i) || (i == |names| && n !in names) {
      FirstNameSnoc(names, n, i);
    }
    assert forall k :: 0 <= k < |names| ==> (names + [n])[k] == names[k];
  }

  lemma {:induction false} AppendsNew(have: seq<Json>, names: seq<string>, now: seq<Json>, from: seq<int>, n: string)
    requires Appends(have, names, now, from) && Text(n) !in have && n !in names
    ensures Appends(have, names + [n], now + [Text(n)], from + [|names|])
  {
    forall i ensures FirstName(names + [n], i) <==> FirstName(names, i) || (i == |names| && n !in names) {
      FirstNameSnoc(names, n, i);
    }
    assert forall k :: 0 <= k < |names| ==> (names + [n])[k] == names[k];
    assert forall i :: i in from ==> i in from + [|names|];
  }

  lemma {:induction false} AppendedItem(have: seq<Json>, names: seq<string>, now: seq<Json>, from: seq<int>, j: Json)
    requires Appends(have, names, now, from) && j in now
    ensures j in have || exists n :: n in names && j == Text(n)
  {
    var k :| 0 <= k < |now| && now[k] == j;
    if k < |have| {
      assert now[..|have|][k] == j;
    } else {
      assert names[from[k - |have|]] in names;
    }
  }

  lemma {:induction false} MergedAppends(have: seq<Json>, names: seq<string>) returns (from: seq<int>)
    ensures Appends(have, names, Merged(have, names), from)
    decreases |names|
  {
    if names == [] {
      from := [];
    } else {
      var init, n := names[..|names|-1], names[|names|-1];
      assert names == init + [n];
      from := MergedAppends(have, init);
      MergedSnoc(have, init, n);
      MergedSpec(have, init);
      if Text(n) in have || n in init {
        AppendsSame(have, init, Merged(have, init), from, n);
      } else {
        if Text(n) in Merged(have, init) { AppendedItem(have, init, Merged(have, init), from, Text(n)); }
        AppendsNew(have, init, Merged(have, init), from, n);
        from := from + [|init|];
      }
    }
  }

  /** The new allow-list of tools, and of the channel's users, is the old one and
      what was missing of the given names, nothing else. */
  lemma {:induction false} ToolsExactly(config: Props, names: seq<string>, v: Values) returns (from: seq<int>)
    ensures Appends(ItemsOf(AlsoAllow(config)), names, ItemsOf(AlsoAllow(Ensured(config, names, v))), from)
  {
    EnsureByStage(config, names, v);
    var c1 := WithPlugin(config);
    SameContainer(Ensured(config, names, v), WithTools(c1, names, c1 != config));
    SameContainer(c1, config);
    from := MergedAppends(ItemsOf(AlsoAllow(config)), names);
  }

  lemma {:induction false} UsersExactly(config: Props, names: seq<string>, v: Values) returns (from: seq<int>)
    requires v.allowedUsers.Some?
    ensures Appends(ItemsOf(Get(ChannelOf(config), ALLOW_FROM)), v.allowedUsers.value,
                    ItemsOf(Get(ChannelOf(Ensured(config, names, v)), ALLOW_FROM)), from)
  {
    EnsureKeepsOwn(config, names, v, ALLOW_FROM);
    ChannelKeys();
    from := MergedAppends(ItemsOf(Get(ChannelOf(config), ALLOW_FROM)), v.allowedUsers.value);
  }

  /** With no new users the list stays as it is, even if it is no list. */
  lemma {:induction false} UsersUntouched(config: Props, names: seq<string>, v: Values)
    requires v.allowedUsers.Some? ==>
               forall u :: u in v.allowedUsers.value ==> Text(u) in ItemsOf(Get(ChannelOf(config), ALLOW_FROM))
    ensures Get(ChannelOf(Ensured(config, names, v)), "allowFrom") == Get(ChannelOf(config), "allowFrom")
  {
    EnsureKeepsOwn(config, names, v, ALLOW_FROM);
    ChannelKeys();
    if v.allowedUsers.Some? {
      MergedFixpoint(ItemsOf(Get(ChannelOf(config), ALLOW_FROM)), v.allowedUsers.value);
    }
  }

  function On(props: Props): Json { Object(props["enabled" := Bool(true)]) }

  /** The first installation, into an empty configuration. */
  lemma {:induction false} FirstInstall(names: seq<string>, url: string, token: string)
    requires url != "" && token != ""
    ensures Ensured(map[], names, Values(url, token, None)) ==
              map["plugins" := Object(map["entries" := Object(map["alga" := On(map[])])])]
              + map["tools" := Object(map["alsoAllow" := Array(Merged([], names), map[])])]
              + map["channels" :=
                  Object(map["alga" := On(map["serverUrl" := Text(url)] + map["token" := Text(token)])])]
  {
    TopKeys();
    ChannelKeys();
    var c1 := WithPlugin(map[]);
    assert c1 == map["plugins" := Object(map["entries" := Object(map["alga" := On(map[])])])];
    assert c1 != map[] by { assert PLUGINS in c1; }
    var c2 := WithTools(c1, names, true);
    assert c2 == c1 + map["tools" := Object(map["alsoAllow" := Array(Merged([], names), map[])])];
    var p := ChannelProps(map[], Values(url, token, None));
    assert p == (map["serverUrl" := Text(url)] + map["token" := Text(token)])["enabled" := Bool(true)];
  }

  // ----------------------------------------------------------------- the removal

  predicate IsAlgaTool(j: Json) { j.Text? && TOOL_PREFIX <= j.s }

  function OtherTools(items: seq<Json>): seq<Json> {
    if items == [] then [] else (if IsAlgaTool(items[0]) then [] else [items[0]]) + OtherTools(items[1..])
  }

  function WithoutPlugin(p: Props): Props {
    if PLUGIN in p && Truthy(p[PLUGIN]) then p - {PLUGIN} else p
  }

  function StripEntries(config: Props): Props {
    if HasObject(config, PLUGINS) && HasObject(config[PLUGINS].props, ENTRIES) then
      var plugins := config[PLUGINS];
      var entries := plugins.props[ENTRIES];
      config[PLUGINS := WithProps(plugins, plugins.props[ENTRIES := WithProps(entries, WithoutPlugin(entries.props))])]
    else config
  }

  function StripTools(config: Props): Props {
    if HasObject(config, TOOLS) && AlsoAllow(config).Some? && AlsoAllow(config).value.Array? then
      var tools := config[TOOLS];
      config[TOOLS := WithProps(tools, tools.props[ALSO_ALLOW := Array(OtherTools(ItemsOf(AlsoAllow(config))), map[])])]
    else config
  }

  function StripChannel(config: Props): Props {
    if HasObject(config, CHANNELS) then
      config[CHANNELS := WithProps(config[CHANNELS], WithoutPlugin(config[CHANNELS].props))]
    else config
  }

  /** stripAlgaConfig; `None` when the script throws on an allow-list item that is
      not a string. */
  function Stripped(config: Props): Option<Props> {
    if exists j :: j in ItemsOf(AlsoAllow(config)) && !j.Text? then None
    else Some(StrippedProps(config))
  }

  /** The configuration holds something of the plugin's. */
  predicate Installed(config: Props) {
    || (PLUGIN in EntriesOf(config) && Truthy(EntriesOf(config)[PLUGIN]))
    || (exists j :: j in ItemsOf(AlsoAllow(config)) && IsAlgaTool(j))
    || (PLUGIN in ChannelsOf(config) && Truthy(ChannelsOf(config)[PLUGIN]))
  }

  lemma {:induction false} OtherToolsLength(items: seq<Json>)
    ensures |OtherTools(items)| <= |items|
    ensures |OtherTools(items)| == |items| <==> forall j :: j in items ==> !IsAlgaTool(j)
  {
    if items != [] {
      OtherToolsLength(items[1..]);
      assert items[0] in items && forall j :: j in items ==> j == items[0] || j in items[1..];
    }
  }

  lemma {:induction false} OtherToolsStep(out: seq<Json>, items: seq<Json>, i: nat)
    requires i < |items|
    ensures out + OtherTools(items[i..])
              == (if IsAlgaTool(items[i]) then out else out + [items[i]]) + OtherTools(items[i+1..])
  {
    var rest := OtherTools(items[i+1..]);
    assert items[i..][1..] == items[i+1..];
    if IsAlgaTool(items[i]) {
      assert [] + rest == rest;
    } else {
      Associate(out, [items[i]], rest);
    }
  }

  /** The filter over the allow-list; it throws on an item that is no string. */
  method FilterTools(items: seq<Json>) returns (r: Option<seq<Json>>)
    ensures r == if exists j :: j in items && !j.Text? then None else Some(OtherTools(items))
  {
    var out: seq<Json> := [];
    var i := 0;
    assert items[0..] == items;
    while i < |items|
      invariant 0 <= i <= |items|
      invariant forall k :: 0 <= k < i ==> items[k].Text?
      invariant out + OtherTools(items[i..]) == OtherTools(items)
    {
      if !items[i].Text? {
        return None;
      }
      OtherToolsStep(out, items, i);
      if !(TOOL_PREFIX <= items[i].s) {
        out := out + [items[i]];
      }
      i := i + 1;
    }
    assert items[i..] == [];
    assert out + [] == out;
    r := Some(out);
  }

  method RemoveEntry(config: Props) returns (c: Props, changed: bool)
    ensures c == StripEntries(config)
    ensures changed <==> PLUGIN in EntriesOf(config) && Truthy(EntriesOf(config)[PLUGIN])
  {
    c, changed := config, false;
    if HasObject(c, PLUGINS) && HasObject(c[PLUGINS].props, ENTRIES) {
      var plugins := c[PLUGINS];
      var entries := plugins.props[ENTRIES];
      if PLUGIN in entries.props && Truthy(entries.props[PLUGIN]) {
        entries := WithProps(entries, entries.props - {PLUGIN});
        changed := true;
      }
      c := c[PLUGINS := WithProps(plugins, plugins.props[ENTRIES := entries])];
    }
  }

  method RemoveTools(config: Props) returns (r: Option<Props>, changed: bool)
    ensures r == if exists j :: j in ItemsOf(AlsoAllow(config)) && !j.Text? then None else Some(StripTools(config))
    ensures r.Some? ==> (changed <==> exists j :: j in ItemsOf(AlsoAllow(config)) && IsAlgaTool(j))
  {
    r, changed := Some(config), false;
    if HasObject(config, TOOLS) && ALSO_ALLOW in config[TOOLS].props && config[TOOLS].props[ALSO_ALLOW].Array? {
      var tools := config[TOOLS];
      var items := tools.props[ALSO_ALLOW].items;
      var kept := FilterTools(items);
      if kept.None? {
        return None, changed;
      }
      OtherToolsLength(items);
      r := Some(config[TOOLS := WithProps(tools, tools.props[ALSO_ALLOW := Array(kept.value, map[])])]);
      changed := |kept.value| != |items|;
    }
  }

  method RemoveChannel(config: Props) returns (c: Props, changed: bool)
    ensures c == StripChannel(config)
    ensures changed <==> PLUGIN in ChannelsOf(config) && Truthy(ChannelsOf(config)[PLUGIN])
  {
    c, changed := config, false;
    if HasObject(c, CHANNELS) {
      var channels := c[CHANNELS];
      if PLUGIN in channels.props && Truthy(channels.props[PLUGIN]) {
        channels := WithProps(channels, channels.props - {PLUGIN});
        changed := true;
      }
      c := c[CHANNELS := channels];
    }
  }

  /** stripAlgaConfig: the flag tells whether there was anything to remove. */
  method StripAlgaConfig(config: Props) returns (r: Option<Props>, changed: bool)
    ensures r == Stripped(config)
    ensures r.Some? ==> (changed <==> Installed(config))
  {
    TopKeys();
    var c, did;
    c, changed := RemoveEntry(config);
    assert Get(c, TOOLS) == Get(config, TOOLS);
    r, did := RemoveTools(c);
    if r.None? {
      return;
    }
    changed := changed || did;
    assert Get(r.value, CHANNELS) == Get(config, CHANNELS);
    c, did := RemoveChannel(r.value);
    r, changed := Some(c), changed || did;
  }

  lemma {:induction false} OtherToolsMerged(have: seq<Json>, names: seq<string>)
    requires forall n :: n in names ==> TOOL_PREFIX <= n
    ensures OtherTools(Merged(have, names)) == OtherTools(have)
    ensures forall j :: j in Merged(have, names) ==> j in have || j.Text?
    decreases |names|
  {
    if names != [] {
      assert names[0] in names && forall n :: n in names[1..] ==> n in names;
      var next := if Text(names[0]) in have then have else have + [Text(names[0])];
      OtherToolsMerged(next, names[1..]);
      OtherToolsConcat(have, [Text(names[0])]);
      assert OtherTools([Text(names[0])]) == [] by { assert [Text(names[0])][1..] == []; }
    }
  }

  lemma {:induction false} OtherToolsConcat(a: seq<Json>, b: seq<Json>)
    ensures OtherTools(a + b) == OtherTools(a) + OtherTools(b)
  {
    if a == [] {
      assert a + b == b;
    } else {
      OtherToolsConcat(a[1..], b);
      assert (a + b)[0] == a[0] && (a + b)[1..] == a[1..] + b;
      Associate(if IsAlgaTool(a[0]) then [] else [a[0]], OtherTools(a[1..]), OtherTools(b));
    }
  }

  lemma {:induction false} OtherToolsKeeps(items: seq<Json>)
    ensures forall j :: j in OtherTools(items) <==> j in items && !(j.Text? && "alga_" <= j.s)
  {
    if items != [] {
      OtherToolsKeeps(items[1..]);
      assert items == [items[0]] + items[1..];
    }
  }

  function StrippedProps(config: Props): Props { StripChannel(StripTools(StripEntries(config))) }

  /** The result of the removal, key by key. */
  lemma {:induction false} StripByKey(a: Props, k: string)
    ensures Get(StrippedProps(a), k) ==
              if k == PLUGINS then Get(StripEntries(a), k)
              else if k == TOOLS then Get(StripTools(a), k)
              else if k == CHANNELS then Get(StripChannel(a), k)
              else Get(a, k)
  {
    TopKeys();
  }

  /** A part of the removal only looks at its own key. */
  lemma {:induction false} PartsApart(a: Props, b: Props)
    ensures Get(a, PLUGINS) == Get(b, PLUGINS) ==> Get(StripEntries(a), PLUGINS) == Get(StripEntries(b), PLUGINS)
    ensures Get(a, TOOLS) == Get(b, TOOLS) ==> Get(StripTools(a), TOOLS) == Get(StripTools(b), TOOLS)
    ensures Get(a, CHANNELS) == Get(b, CHANNELS) ==> Get(StripChannel(a), CHANNELS) == Get(StripChannel(b), CHANNELS)
  {
  }

  lemma {:induction false} EntriesAfter(config: Props, k: string)
    ensures var c := StripEntries(WithPlugin(config));
            && PLUGIN !in EntriesOf(c)
            && (k != PLUGIN ==> Get(EntriesOf(c), k) == Get(EntriesOf(config), k))
            && (k != ENTRIES ==> Get(PluginsOf(c), k) == Get(PluginsOf(config), k))
  {
  }

  lemma {:induction false} ListAfter(config: Props, names: seq<string>, changed: bool, k: string)
    requires forall n :: n in names ==> TOOL_PREFIX <= n
    ensures var c := StripTools(WithTools(config, names, changed));
            && ItemsOf(AlsoAllow(c)) == OtherTools(ItemsOf(AlsoAllow(config)))
            && (k != ALSO_ALLOW ==> Get(ToolsOf(c), k) == Get(ToolsOf(config), k))
  {
    OtherToolsMerged(ItemsOf(AlsoAllow(config)), names);
  }

  lemma {:induction false} ChannelsAfter(config: Props, v: Values, k: string)
    ensures var c := StripChannel(WithChannel(config, v));
            && PLUGIN !in ChannelsOf(c)
            && (k != PLUGIN ==> Get(ChannelsOf(c), k) == Get(ChannelsOf(config), k))
  {
  }

  lemma {:induction false} ThrowsAlike(config: Props, names: seq<string>, v: Values)
    requires forall n :: n in names ==> TOOL_PREFIX <= n
    ensures Stripped(Ensured(config, names, v)).None? <==> exists j :: j in ItemsOf(AlsoAllow(config)) && !j.Text?
  {
    TopKeys();
    var have := ItemsOf(AlsoAllow(config));
    OtherToolsMerged(have, names);
    MergedSpec(have, names);
    assert forall j :: j in have ==> j in Merged(have, names);
  }

  /** The three stages of the removal after those of the merge. */
  lemma {:induction false} StripByStage(config: Props, names: seq<string>, v: Values)
    ensures var c1 := WithPlugin(config);
            var s := StrippedProps(Ensured(config, names, v));
            && Get(s, PLUGINS) == Get(StripEntries(c1), PLUGINS)
            && Get(s, TOOLS) == Get(StripTools(WithTools(c1, names, c1 != config)), TOOLS)
            && Get(s, CHANNELS) == Get(StripChannel(WithChannel(config, v)), CHANNELS)
            && forall k :: k != PLUGINS && k != TOOLS && k != CHANNELS ==> Get(s, k) == Get(config, k)
  {
    var c1 := WithPlugin(config);
    var c := Ensured(config, names, v);
    EnsureByStage(config, names, v);
    PartsApart(c, c1);
    PartsApart(c, WithTools(c1, names, c1 != config));
    PartsApart(c, WithChannel(config, v));
    forall k
      ensures Get(StrippedProps(c), k) ==
                if k == PLUGINS then Get(StripEntries(c), k)
                else if k == TOOLS then Get(StripTools(c), k)
                else if k == CHANNELS then Get(StripChannel(c), k)
                else Get(c, k)
    {
      StripByKey(c, k);
    }
  }

  lemma {:induction false} EntriesRestored(config: Props, names: seq<string>, v: Values, k: string)
    ensures var s := StrippedProps(Ensured(config, names, v));
            && PLUGIN !in EntriesOf(s)
            && (k != PLUGIN ==> Get(EntriesOf(s), k) == Get(EntriesOf(config), k))
            && (k != ENTRIES ==> Get(PluginsOf(s), k) == Get(PluginsOf(config), k))
  {
    StripByStage(config, names, v);
    EntriesAfter(config, k);
    SameContainer(StrippedProps(Ensured(config, names, v)), StripEntries(WithPlugin(config)));
  }

  lemma {:induction false} ToolsRestored(config: Props, names: seq<string>, v: Values, k: string)
    requires forall n :: n in names ==> TOOL_PREFIX <= n
    ensures var s := StrippedProps(Ensured(config, names, v));
            && ItemsOf(AlsoAllow(s)) == OtherTools(ItemsOf(AlsoAllow(config)))
            && (k != ALSO_ALLOW ==> Get(ToolsOf(s), k) == Get(ToolsOf(config), k))
  {
    var c1 := WithPlugin(config);
    EnsureByStage(config, names, v);
    StripByStage(config, names, v);
    ListAfter(c1, names, c1 != config, k);
    SameContainer(StrippedProps(Ensured(config, names, v)), StripTools(WithTools(c1, names, c1 != config)));
    SameContainer(c1, config);
  }

  lemma {:induction false} ChannelsRestored(config: Props, names: seq<string>, v: Values, k: string)
    ensures var s := StrippedProps(Ensured(config, names, v));
            PLUGIN !in ChannelsOf(s) && (k != PLUGIN ==> Get(ChannelsOf(s), k) == Get(ChannelsOf(config), k))
  {
    StripByStage(config, names, v);
    ChannelsAfter(config, v, k);
    SameContainer(StrippedProps(Ensured(config, names, v)), StripChannel(WithChannel(config, v)));
  }

  /** Installing and then uninstalling, on every configuration: the removal throws
      exactly if the old allow-list has an item that is no string; otherwise
      nothing of the plugin's is left, the other tools are there in their order,
      and nothing of others has changed at any key. */
  lemma {:induction false} StripAfterEnsure(config: Props, names: seq<string>, v: Values, k: string)
    requires forall n :: n in names ==> TOOL_PREFIX <= n
    ensures var r := Stripped(Ensured(config, names, v));
            && (r.None? <==> exists j :: j in ItemsOf(AlsoAllow(config)) && !j.Text?)
            && (r.Some? ==>
                  && !Installed(r.value)
                  && PLUGIN !in EntriesOf(r.value) && PLUGIN !in ChannelsOf(r.value)
                  && ItemsOf(AlsoAllow(r.value)) == OtherTools(ItemsOf(AlsoAllow(config)))
                  && OthersKept(r.value, config, k))
  {
    ThrowsAlike(config, names, v);
    StripByStage(config, names, v);
    EntriesRestored(config, names, v, k);
    ToolsRestored(config, names, v, k);
    ChannelsRestored(config, names, v, k);
    OtherToolsKeeps(ItemsOf(AlsoAllow(config)));
  }

  /** A removal alone, on any configuration: the plugin's entry and channel go
      unless JavaScript takes their value for false, the plugin's tools go from a
      list, and nothing of others changes. */
  lemma {:induction false} StripExactly(config: Props, k: string)
    ensures var s := StrippedProps(config);
            && OthersKept(s, config, k)
            && (PLUGIN in EntriesOf(s) <==>
                  PLUGIN in EntriesOf(config) && EntriesOf(config)[PLUGIN] in {Null, Bool(false), Number(0), Text("")})
            && (PLUGIN in ChannelsOf(s) <==>
                  PLUGIN in ChannelsOf(config) &&
                      ChannelsOf(config)[PLUGIN] in {Null, Bool(false), Number(0), Text("")})
            && ItemsOf(AlsoAllow(s)) == OtherTools(ItemsOf(AlsoAllow(config)))
  {
    var s := StrippedProps(config);
    StripByKey(config, PLUGINS);
    StripByKey(config, TOOLS);
    StripByKey(config, CHANNELS);
    StripByKey(config, k);
    TopKeys();
    SameContainer(s, StripEntries(config));
    SameContainer(s, StripTools(config));
    SameContainer(s, StripChannel(config));
    EntriesStripped(config, k);
    ToolsStripped(config, k);
    ChannelsStripped(config, k);
  }

  lemma {:induction false} EntriesStripped(config: Props, k: string)
    ensures var c := StripEntries(config);
            && (PLUGIN in EntriesOf(c) <==>
                  PLUGIN in EntriesOf(config) && EntriesOf(config)[PLUGIN] in {Null, Bool(false), Number(0), Text("")})
            && (k != PLUGIN ==> Get(EntriesOf(c), k) == Get(EntriesOf(config), k))
            && (k != ENTRIES ==> Get(PluginsOf(c), k) == Get(PluginsOf(config), k))
  {
  }

  lemma {:induction false} ToolsStripped(config: Props, k: string)
    ensures var c := StripTools(config);
            && ItemsOf(AlsoAllow(c)) == OtherTools(ItemsOf(AlsoAllow(config)))
            && (k != ALSO_ALLOW ==> Get(ToolsOf(c), k) == Get(ToolsOf(config), k))
  {
  }

  lemma {:induction false} ChannelsStripped(config: Props, k: string)
    ensures var c := StripChannel(config);
            && (PLUGIN in ChannelsOf(c) <==>
                  PLUGIN in ChannelsOf(config) &&
                      ChannelsOf(config)[PLUGIN] in {Null, Bool(false), Number(0), Text("")})
            && (k != PLUGIN ==> Get(ChannelsOf(c), k) == Get(ChannelsOf(config), k))
  {
  }

  // ------------------------------------------------------- uninstalling alone

  /** The containers the script expects are there, and the plugin's own entries
      are absent or truthy. */
  predicate Tidy(config: Props) {
    && HasObject(config, PLUGINS) && HasObject(config[PLUGINS].props, ENTRIES)
    && HasObject(config, TOOLS) && HasObject(config, CHANNELS)
    && AlsoAllow(config).Some? && AlsoAllow(config).value.Array?
    && (PLUGIN in config[PLUGINS].props[ENTRIES].props ==> Truthy(config[PLUGINS].props[ENTRIES].props[PLUGIN]))
    && (PLUGIN in config[CHANNELS].props ==> Truthy(config[CHANNELS].props[PLUGIN]))
  }

  lemma {:induction false} StripAfterPlugin(config: Props)
    requires Tidy(config)
    ensures StripEntries(WithPlugin(config)) == StripEntries(config)
  {
    var plugins := config[PLUGINS];
    var entries := plugins.props[ENTRIES];
    var c := WithPlugin(config);
    var with := c[PLUGINS].props[ENTRIES];
    assert WithoutPlugin(with.props) == WithoutPlugin(entries.props);
    var left := WithProps(entries, WithoutPlugin(entries.props));
    assert left == WithProps(with, WithoutPlugin(with.props));
    assert c[PLUGINS].props[ENTRIES := left] == plugins.props[ENTRIES := left];
    var p := WithProps(plugins, plugins.props[ENTRIES := left]);
    assert c[PLUGINS := p] == config[PLUGINS := p];
  }

  lemma {:induction false} StripAfterTools(config: Props, names: seq<string>, changed: bool)
    requires HasObject(config, TOOLS) && AlsoAllow(config).Some? && AlsoAllow(config).value.Array?
    requires forall n :: n in names ==> TOOL_PREFIX <= n
    ensures StripTools(WithTools(config, names, changed)) == StripTools(config)
  {
    var have := ItemsOf(AlsoAllow(config));
    var c := WithTools(config, names, changed);
    OtherToolsMerged(have, names);
    var left := Array(OtherTools(have), map[]);
    assert c[TOOLS].props[ALSO_ALLOW := left] == config[TOOLS].props[ALSO_ALLOW := left];
    var t := WithProps(config[TOOLS], config[TOOLS].props[ALSO_ALLOW := left]);
    assert c[TOOLS := t] == config[TOOLS := t];
  }

  lemma {:induction false} StripAfterChannel(config: Props, v: Values)
    requires HasObject(config, CHANNELS)
    requires PLUGIN in config[CHANNELS].props ==> Truthy(config[CHANNELS].props[PLUGIN])
    ensures StripChannel(WithChannel(config, v)) == StripChannel(config)
  {
    var channels := config[CHANNELS];
    var c := WithChannel(config, v);
    assert WithoutPlugin(c[CHANNELS].props) == WithoutPlugin(channels.props);
    var left := WithProps(channels, WithoutPlugin(channels.props));
    assert c[CHANNELS := left] == config[CHANNELS := left];
  }

  lemma {:induction false} SameByKey(a: Props, b: Props)
    requires forall k :: Get(a, k) == Get(b, k)
    ensures a == b
  {
    assert forall k :: k in a ==> Get(a, k) == Some(a[k]);
    assert forall k :: k in b ==> Get(b, k) == Some(b[k]);
    forall k ensures k in a <==> k in b {
      assert Get(a, k) == Get(b, k);
    }
    forall k | k in a ensures a[k] == b[k] {
      assert Get(a, k) == Get(b, k);
    }
  }

  lemma {:induction false} StripUndoesAt(config: Props, names: seq<string>, v: Values, k: string)
    requires Tidy(config)
    requires forall n :: n in names ==> TOOL_PREFIX <= n
    ensures Get(StrippedProps(Ensured(config, names, v)), k) == Get(StrippedProps(config), k)
  {
    TopKeys();
    var c1 := WithPlugin(config);
    var changed := c1 != config;
    var c2 := WithTools(c1, names, changed);
    var c := WithChannel(c2, v);
    StripByKey(c, k);
    StripByKey(config, k);
    if k == PLUGINS {
      StripAfterPlugin(config);
      PartsApart(c, c1);
    } else if k == TOOLS {
      StripAfterTools(c1, names, changed);
      PartsApart(c, c2);
      PartsApart(c1, config);
    } else if k == CHANNELS {
      StripAfterChannel(c2, v);
      PartsApart(c2, config);
    }
  }

  /** On a tidy configuration installing and uninstalling is the same as
      uninstalling alone. */
  lemma {:induction false} StripUndoesEnsure(config: Props, names: seq<string>, v: Values)
    requires Tidy(config)
    requires forall n :: n in names ==> TOOL_PREFIX <= n
    ensures Stripped(Ensured(config, names, v)) == Stripped(config)
  {
    ThrowsAlike(config, names, v);
    forall k ensures Get(StrippedProps(Ensured(config, names, v)), k) == Get(StrippedProps(config), k) {
      StripUndoesAt(config, names, v, k);
    }
    SameByKey(StrippedProps(Ensured(config, names, v)), StrippedProps(config));
  }

  ghost predicate PluginGone(s: Props) {
    HasObject(s, PLUGINS) && HasObject(s[PLUGINS].props, ENTRIES) && PLUGIN !in s[PLUGINS].props[ENTRIES].props
  }

  ghost predicate ListLeft(s: Props) { HasObject(s, TOOLS) && AlsoAllow(s).Some? && AlsoAllow(s).value.Array? }

  ghost predicate ChannelGone(s: Props) { HasObject(s, CHANNELS) && PLUGIN !in s[CHANNELS].props }

  lemma {:induction false} PluginStripped(config: Props)
    ensures PluginGone(StripEntries(WithPlugin(config)))
  {
  }

  lemma {:induction false} ListStripped(config: Props, names: seq<string>, changed: bool)
    requires names != []
    ensures ListLeft(StripTools(WithTools(config, names, changed)))
  {
    MergedSpec(ItemsOf(AlsoAllow(config)), names);
    assert names[0] in names;
  }

  lemma {:induction false} ChannelStripped(config: Props, v: Values)
    ensures ChannelGone(StripChannel(WithChannel(config, v)))
  {
  }

  /** What the merge leaves behind for the removal. */
  lemma {:induction false} LeftBehind(config: Props, names: seq<string>, v: Values)
    requires names != []
    ensures var s := StrippedProps(Ensured(config, names, v)); PluginGone(s) && ListLeft(s) && ChannelGone(s)
  {
    TopKeys();
    var c1 := WithPlugin(config);
    var c2 := WithTools(c1, names, c1 != config);
    var c := WithChannel(c2, v);
    PluginStripped(config);
    ListStripped(c1, names, c1 != config);
    ChannelStripped(c2, v);
    PartsApart(c, c1);
    PartsApart(c, c2);
    StripByKey(c, PLUGINS);
    StripByKey(c, TOOLS);
    StripByKey(c, CHANNELS);
  }

  /** The condition is exact, unless the removal throws in any case. */
  lemma {:induction false} UndoneOnlyIfTidy(config: Props, names: seq<string>, v: Values)
    requires names != [] && Stripped(config).Some?
    requires Stripped(Ensured(config, names, v)) == Stripped(config)
    ensures Tidy(config)
  {
    TopKeys();
    LeftBehind(config, names, v);
    StripByKey(config, PLUGINS);
    StripByKey(config, TOOLS);
    StripByKey(config, CHANNELS);
  }
}
