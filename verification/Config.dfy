/** How the configuration of a container follows from its spec and its image: mounts, command and environment. */
module Config {
  import opened Wrappers

  /** A volume entry of a container spec. The option list is the caller's own. */
  datatype VolumeEntry =
    VolumeEntry(path: string, subPath: string, options: array<string>, readOnly: bool, remote: bool)

  datatype Destination = Joined(path: string, subPath: string) | ResolvConf

  datatype Mount = BindMount(source: string, destination: Destination, options: array<string>)

  /** What an entry and a mount say, apart from where their option lists are. */
  datatype EntryView =
    EntryView(path: string, subPath: string, options: seq<string>, readOnly: bool, remote: bool)
  datatype MountView = MountView(source: string, destination: Destination, options: seq<string>)

  function ViewEntry(e: VolumeEntry): EntryView
    reads e.options
  {
    EntryView(e.path, e.subPath, e.options[..], e.readOnly, e.remote)
  }

  /** `says` tells what the entries say. */
  ghost predicate Says(entries: map<string, VolumeEntry>, says: map<string, EntryView>)
    reads set n | n in entries :: entries[n].options
  {
    says.Keys == entries.Keys && forall n | n in entries :: says[n] == ViewEntry(entries[n])
  }

  function ViewMount(m: Mount): MountView
    reads m.options
  {
    MountView(m.source, m.destination, m.options[..])
  }

  /** `views` tells what the mounts say. */
  ghost predicate Views(mounts: seq<Mount>, views: seq<MountView>)
    reads set i | 0 <= i < |mounts| :: mounts[i].options
  {
    |views| == |mounts| && forall i | 0 <= i < |mounts| :: views[i] == ViewMount(mounts[i])
  }

  /** What the world around the configuration answers. `hostPaths` holds the volumes with a host path and where that
      is resolved to, if it can be; `accepted` the remote volumes that can be mounted; `volumeData` the volumes with
      data: `None` for data without a map, otherwise where the data is written, if it can be. */
  datatype Volumes = Volumes(
    hostPaths: map<string, Option<string>>,
    accepted: set<string>,
    volumeData: map<string, Option<Option<string>>>)

  predicate HasData(vols: Volumes, name: string) { name in vols.volumeData && vols.volumeData[name].Some? }

  /** A volume cannot be mounted: its host path cannot be resolved, its remote mount is refused, or its data cannot
      be written. */
  predicate Fails(vols: Volumes, name: string, remote: bool) {
    || (name in vols.hostPaths && vols.hostPaths[name].None?)
    || (name in vols.hostPaths && remote && name !in vols.accepted)
    || (HasData(vols, name) && vols.volumeData[name].value.None?)
  }

  /** The mount of one volume: data wins over a host path, a volume of neither kind has an empty source, and the options
      are those of the entry, with the read-only option at the end if asked for. */
  predicate MountFor(vols: Volumes, name: string, e: EntryView, r: MountView) {
    && (HasData(vols, name) ==> vols.volumeData[name].value == Some(r.source))
    && (!HasData(vols, name) && name in vols.hostPaths ==> vols.hostPaths[name] == Some(r.source))
    && (!HasData(vols, name) && name !in vols.hostPaths ==> r.source == "")
    && r.destination == Joined(e.path, e.subPath)
    && |r.options| == |e.options| + (if e.readOnly then 1 else 0) && r.options[..|e.options|] == e.options
    && (e.readOnly ==> r.options[|e.options|] == "ro")
  }

  /** `names` lists the keys of a map, each once. */
  ghost predicate Lists<T>(names: seq<string>, entries: map<string, T>) {
    && (forall n | n in names :: n in entries)
    && (forall n | n in entries :: n in names)
    && (forall i, j | 0 <= i < j < |names| :: names[i] != names[j])
  }

  /** One mount for each of the `names`, in that order. */
  ghost predicate MountsFor(
    vols: Volumes, entries: map<string, EntryView>, names: seq<string>, mounts: seq<MountView>) {
    && |mounts| == |names|
    && forall i | 0 <= i < |names| :: names[i] in entries && MountFor(vols, names[i], entries[names[i]], mounts[i])
  }

  /** The option list of a mount: a copy, to which the read-only option is appended if asked for. The caller's list
      is not touched. */
  method CopyOptions(options: array<string>, readOnly: bool) returns (r: array<string>)
    ensures fresh(r) && r[..] == options[..] + if readOnly then ["ro"] else []
  {
    var n := options.Length;
    r := new string[n](i requires 0 <= i < n reads options => options[i]);
    assert r[..] == options[..];
    if readOnly {
      var copy := r;
      r := new string[n + 1](i requires 0 <= i <= n reads copy => if i < copy.Length then copy[i] else "ro");
      assert r[..] == options[..] + ["ro"];
    }
  }

  /** One volume: host path or remote volume first, then data, then the options. */
  method MountVolume(vols: Volumes, name: string, e: VolumeEntry) returns (r: Option<Mount>)
    ensures r.None? <==> Fails(vols, name, e.remote)
    ensures r.Some? ==> fresh(r.value.options) && MountFor(vols, name, ViewEntry(e), ViewMount(r.value))
  {
    var source := "";
    if name in vols.hostPaths {
      if vols.hostPaths[name].None? {
        return None;
      }
      source := vols.hostPaths[name].value;
      if e.remote && name !in vols.accepted {
        return None;
      }
    }
    if name in vols.volumeData && vols.volumeData[name].Some? {
      if vols.volumeData[name].value.None? {
        return None;
      }
      source := vols.volumeData[name].value.value;
    }
    var options := CopyOptions(e.options, e.readOnly);
    return Some(BindMount(source, Joined(e.path, e.subPath), options));
  }

  /** The mount loop visits the volume entries in any order. It succeeds exactly if every volume can be mounted, and
      then there is one mount for each entry. Every option list is new, and no option list of the caller changes. */
  method MountAll(vols: Volumes, entries: map<string, VolumeEntry>, ghost says: map<string, EntryView>)
    returns (r: Option<seq<Mount>>, ghost names: seq<string>, ghost views: seq<MountView>)
    requires Says(entries, says)
    ensures Says(entries, says)
    ensures r.Some? <==> forall n | n in entries :: !Fails(vols, n, entries[n].remote)
    ensures r.Some? ==> Lists(names, entries) && |names| == |entries|
    ensures r.Some? ==> Views(r.value, views) && MountsFor(vols, says, names, views)
    ensures r.Some? ==> forall m | m in r.value :: fresh(m.options)
  {
    var mounts: seq<Mount> := [];
    names, views := [], [];
    var rest := entries.Keys;
    while rest != {}
      invariant rest <= entries.Keys && Says(entries, says)
      invariant forall n | n in names :: n in entries && n !in rest && !Fails(vols, n, entries[n].remote)
      invariant forall n | n in entries :: n in rest || n in names
      invariant forall i, j | 0 <= i < j < |names| :: names[i] != names[j]
      invariant forall m | m in mounts :: fresh(m.options)
      invariant Views(mounts, views) && MountsFor(vols, says, names, views)
      decreases rest
    {
      var name :| name in rest;
      rest := rest - {name};
      var mount := MountVolume(vols, name, entries[name]);
      if mount.None? {
        return None, names, views;
      }
      mounts := mounts + [mount.value];
      views := views + [ViewMount(mount.value)];
      names := names + [name];
    }
    ListsAll(names, entries);
    return Some(mounts), names, views;
  }

  function ResolverView(path: string): MountView { MountView(path, ResolvConf, []) }

  /** Appends the mount of the resolver file, if that file can be written. */
  method AddResolver(mounts: seq<Mount>, path: string, writable: bool, ghost views: seq<MountView>)
    returns (r: Option<seq<Mount>>)
    requires Views(mounts, views)
    ensures r.Some? <==> writable
    ensures r.Some? ==> Views(r.value, views + [ResolverView(path)])
    ensures r.Some? ==> forall m | m in r.value :: m in mounts || fresh(m.options)
  {
    if !writable {
      return None;
    }
    var options := new string[0];
    r := Some(mounts + [BindMount(path, ResolvConf, options)]);
  }

  /** All mounts of a container: one for each volume entry, and one of the resolver file exactly if there are name
      servers. `writable` says whether that file can be written. */
  method BuildMounts(
    vols: Volumes, entries: map<string, VolumeEntry>, nameservers: seq<string>, resolvConf: string, writable: bool,
    ghost says: map<string, EntryView>)
    returns (r: Option<seq<Mount>>, ghost names: seq<string>, ghost views: seq<MountView>)
    requires Says(entries, says)
    ensures Says(entries, says)
    ensures r.Some? <==>
              (forall n | n in entries :: !Fails(vols, n, entries[n].remote)) && (nameservers != [] ==> writable)
    ensures r.Some? ==> Lists(names, entries) && |names| == |entries| && MountsFor(vols, says, names, views)
    ensures r.Some? ==> Views(r.value, if nameservers == [] then views else views + [ResolverView(resolvConf)])
    ensures r.Some? ==> forall m | m in r.value :: fresh(m.options)
  {
    r, names, views := MountAll(vols, entries, says);
    if r.Some? && |nameservers| != 0 {
      r := AddResolver(r.value, resolvConf, writable, views);
    }
  }

  /** A mount of the resolver file is there exactly if there are name servers. */
  lemma ResolverIff(vols: Volumes, entries: map<string, EntryView>, names: seq<string>, views: seq<MountView>,
                    nameservers: seq<string>, path: string)
    requires MountsFor(vols, entries, names, views)
    ensures var all := if nameservers == [] then views else views + [ResolverView(path)];
            (exists i :: 0 <= i < |all| && all[i].destination == ResolvConf) <==> nameservers != []
  {
    forall i | 0 <= i < |views| ensures views[i].destination != ResolvConf {
      assert MountFor(vols, names[i], entries[names[i]], views[i]);
    }
    if nameservers != [] {
      assert (views + [ResolverView(path)])[|views|].destination == ResolvConf;
    }
  }

  function Without<T>(s: seq<T>, k: nat): seq<T>
    requires k < |s|
  {
    s[..k] + s[k + 1..]
  }

  lemma WithoutElements<T>(s: seq<T>, k: nat)
    requires k < |s|
    ensures multiset(s) == multiset(Without(s, k)) + multiset{s[k]}
  {
    assert s == s[..k] + [s[k]] + s[k + 1..];
  }

  lemma WithoutOneMount(
    vols: Volumes, entries: map<string, EntryView>, names: seq<string>, mounts: seq<MountView>, k: nat)
    requires Lists(names, entries) && MountsFor(vols, entries, names, mounts) && k < |names|
    ensures Lists(Without(names, k), entries - {names[k]})
    ensures MountsFor(vols, entries - {names[k]}, Without(names, k), Without(mounts, k))
    ensures multiset(mounts) == multiset(Without(mounts, k)) + multiset{mounts[k]}
  {
    WithoutOne(entries, names, k);
    WithoutElements(mounts, k);
    var fewer, ns, ms := entries - {names[k]}, Without(names, k), Without(mounts, k);
    forall i | 0 <= i < |ns| ensures ns[i] in fewer && MountFor(vols, ns[i], fewer[ns[i]], ms[i]) {
      var j := if i < k then i else i + 1;
      assert ns[i] == names[j] && ms[i] == mounts[j] && ns[i] in ns;
      assert MountFor(vols, names[j], entries[names[j]], mounts[j]);
    }
  }

  /** A volume has one mount only. */
  lemma SameMount(vols: Volumes, name: string, e: EntryView, a: MountView, b: MountView)
    requires MountFor(vols, name, e, a) && MountFor(vols, name, e, b)
    ensures a == b
  {
    assert a.options == e.options + a.options[|e.options|..];
    assert b.options == e.options + b.options[|e.options|..];
  }

  /** The place of a mount is all that the order of the visit decides: two runs over the same entries
      give the same mounts. */
  lemma {:induction false} MountsIgnoreOrder(
    vols: Volumes, entries: map<string, EntryView>,
    names: seq<string>, names': seq<string>, a: seq<MountView>, b: seq<MountView>)
    requires Lists(names, entries) && Lists(names', entries)
    requires MountsFor(vols, entries, names, a) && MountsFor(vols, entries, names', b)
    ensures multiset(a) == multiset(b)
    decreases |names|
  {
    ListsAll(names, entries);
    ListsAll(names', entries);
    if names != [] {
      var last := |names| - 1;
      assert names[last] in names;
      var k :| 0 <= k < |names'| && names'[k] == names[last];
      WithoutOneMount(vols, entries, names, a, last);
      WithoutOneMount(vols, entries, names', b, k);
      var fewer := entries - {names[last]};
      MountsIgnoreOrder(vols, fewer, Without(names, last), Without(names', k), Without(a, last), Without(b, k));
      SameMount(vols, names[last], entries[names[last]], a[last], b[k]);
    }
  }

  /** One mount for each entry: none is left out and none is doubled. */
  lemma {:induction false} ListsAll<T>(names: seq<string>, entries: map<string, T>)
    requires Lists(names, entries)
    ensures |names| == |entries|
    decreases |names|
  {
    if names == [] {
      assert entries.Keys == {};
    } else {
      var last := |names| - 1;
      assert names[last] in names;
      WithoutOne(entries, names, last);
      ListsAll(Without(names, last), entries - {names[last]});
      assert entries.Keys == (entries - {names[last]}).Keys + {names[last]};
    }
  }

  lemma WithoutOne<T>(entries: map<string, T>, names: seq<string>, k: nat)
    requires Lists(names, entries) && k < |names|
    ensures Lists(Without(names, k), entries - {names[k]})
  {
    var rest := Without(names, k);
    assert forall i | 0 <= i < |rest| :: rest[i] == if i < k then names[i] else names[i + 1];
    forall n | n in entries - {names[k]} ensures n in rest {
      var i :| 0 <= i < |names| && names[i] == n;
      assert rest[if i < k then i else i - 1] == n;
    }
    forall n | n in rest ensures n in entries - {names[k]} {
      var i :| 0 <= i < |rest| && rest[i] == n;
      assert names[if i < k then i else i + 1] == n;
    }
  }

  // ----- command -----

  const SHELL := ["/bin/sh", "-c"]

  /** What a container runs: the spec's command replaces the entrypoint of the image together with its default
      arguments, and the spec's arguments replace the default arguments alone. Without either entrypoint a shell is
      used. */
  method ResolveCommand(command: seq<string>, args: seq<string>, imageEntrypoint: seq<string>, imageCmd: seq<string>)
    returns (entrypoint: seq<string>, full: seq<string>, init: bool)
    ensures entrypoint != []
    ensures command != [] ==> entrypoint == command
    ensures command == [] && imageEntrypoint != [] ==> entrypoint == imageEntrypoint
    ensures command == [] && imageEntrypoint == [] ==> entrypoint == ["/bin/sh", "-c"]
    ensures args != [] ==> full == entrypoint + args
    ensures args == [] && command != [] ==> full == command
    ensures args == [] && command == [] ==> full == entrypoint + imageCmd
    ensures init <==> full[0] == "/sbin/init" || full[0] == "/usr/sbin/init"
  {
    entrypoint := command;
    var useDefault := false;
    if |entrypoint| == 0 {
      useDefault := true;
      if |imageEntrypoint| > 0 {
        entrypoint := imageEntrypoint;
      } else {
        entrypoint := SHELL;
      }
    }
    full := [] + entrypoint;
    if |args| > 0 {
      full := full + args;
    } else if useDefault {
      full := full + imageCmd;
    }
    init := entrypoint[0] == "/sbin/init" || entrypoint[0] == "/usr/sbin/init";
  }

  /** The environment of the image, overridden by that of the spec, entry by entry in any order. */
  method MergeEnv(image: map<string, string>, spec: map<string, string>) returns (env: map<string, string>)
    ensures env.Keys == image.Keys + spec.Keys
    ensures forall k | k in env :: env[k] == if k in spec then spec[k] else image[k]
  {
    env := image;
    var rest := spec.Keys;
    while rest != {}
      invariant rest <= spec.Keys
      invariant env.Keys == image.Keys + (spec.Keys - rest)
      invariant forall k | k in env :: env[k] == if k in spec && k !in rest then spec[k] else image[k]
      decreases rest
    {
      var k :| k in rest;
      rest := rest - {k};
      env := env[k := spec[k]];
    }
  }
}
