/** The change handler of the dev watchdog (src/server/index.ts): path
    normalisation, the resource name taken from a changed path, the relevance
    check against the resource's manifest, the stop / refresh / start protocol,
    and the per-resource debounce map.

    The host (the current resource's name, `GetResourcePath`,
    `LoadResourceFile`, glob expansion) is a `Host` value handed to each change
    event, so the manifest and the file system are read afresh every time; the
    host calls that
    act (`StopResource`, `ExecuteCommand('refresh')`, `StartResource`, the
    permission error) are entries appended to an action log; timers are
    abstract: arming stores a pending entry, firing is a method call. */
module Watchdog {
  import opened Text
  import FxManifestParser

  const ManifestFile := "fxmanifest.lua"

  /* ---------------- paths ---------------- */

  /** `slp`: every backslash becomes a slash and nothing else changes. */
  function Slp(path: string): (r: string)
    ensures |r| == |path| && '\\' !in r
    ensures forall k :: 0 <= k < |path| ==> r[k] == if path[k] == '\\' then '/' else path[k]
  {
    ReplaceChar(path, '\\', '/')
  }

  /** Normalising twice is normalising once. */
  lemma SlpIdempotent(path: string)
    ensures Slp(Slp(path)) == Slp(path)
  {
    var once := Slp(path);
    assert forall k :: 0 <= k < |once| ==> Slp(once)[k] == once[k];
  }

  /** `files.map(slp)` */
  function SlpAll(paths: seq<string>): (r: seq<string>)
    ensures |r| == |paths|
    ensures forall k :: 0 <= k < |paths| ==> r[k] == Slp(paths[k])
  {
    seq(|paths|, k requires 0 <= k < |paths| => Slp(paths[k]))
  }

  /** The filter of the watch handler: a segment survives unless it is
      `resources`, starts with `[` or ends with `]`. An empty segment survives
      (its first and last characters are `undefined`). */
  predicate KeepSegment(part: string)
  {
    part != "resources" && (part == [] || (part[0] != '[' && part[|part| - 1] != ']'))
  }

  function FilterSegments(parts: seq<string>): (r: seq<string>)
    ensures |r| <= |parts|
    ensures forall x :: x in r <==> x in parts && KeepSegment(x)
  {
    if parts == [] then []
    else (if KeepSegment(parts[0]) then [parts[0]] else []) + FilterSegments(parts[1..])
  }

  /** The survivors keep their relative order: filtering a concatenation
      concatenates the filtered parts. */
  lemma {:induction false} FilterSegmentsConcat(a: seq<string>, b: seq<string>)
    ensures FilterSegments(a + b) == FilterSegments(a) + FilterSegments(b)
    decreases |a|
  {
    if a != [] {
      assert (a + b)[0] == a[0] && (a + b)[1..] == a[1..] + b;
      FilterSegmentsConcat(a[1..], b);
      var head := if KeepSegment(a[0]) then [a[0]] else [];
      assert head + (FilterSegments(a[1..]) + FilterSegments(b))
          == (head + FilterSegments(a[1..])) + FilterSegments(b);
      assert FilterSegments(a + b) == head + FilterSegments((a + b)[1..]);
    } else {
      assert a + b == b;
    }
  }

  /** `parts[0]`, which is `undefined` when no segment survived. */
  function FirstSegment(parts: seq<string>): Option<string>
  {
    if parts == [] then None else Some(parts[0])
  }

  /** The resource name is the first segment that survives the filter, or
      absent when none does. */
  lemma {:induction false} FirstSurvivor(parts: seq<string>)
    ensures FirstSegment(FilterSegments(parts)).None? <==> forall k :: 0 <= k < |parts| ==> !KeepSegment(parts[k])
    ensures FirstSegment(FilterSegments(parts)).Some? ==>
              exists k :: 0 <= k < |parts| && KeepSegment(parts[k])
                && FirstSegment(FilterSegments(parts)).value == parts[k]
                && forall j :: 0 <= j < k ==> !KeepSegment(parts[j])
    decreases |parts|
  {
    if parts != [] {
      FirstSurvivor(parts[1..]);
      if !KeepSegment(parts[0]) {
        var r := FirstSegment(FilterSegments(parts[1..]));
        if r.Some? {
          var k :| 0 <= k < |parts[1..]| && KeepSegment(parts[1..][k]) && r.value == parts[1..][k]
                   && forall j :: 0 <= j < k ==> !KeepSegment(parts[1..][j]);
          assert KeepSegment(parts[k + 1]) && r.value == parts[k + 1];
          assert forall j :: 0 <= j < k + 1 ==> !KeepSegment(parts[j]) by {
            forall j | 0 <= j < k + 1 ensures !KeepSegment(parts[j]) {
              if j > 0 { assert parts[j] == parts[1..][j - 1]; }
            }
          }
        } else {
          forall j | 0 <= j < |parts| ensures !KeepSegment(parts[j]) {
            if j > 0 { assert parts[j] == parts[1..][j - 1]; }
          }
        }
      }
    }
  }

  /** The segments of a changed path: the first occurrence of the resource
      root plus `/` (its slashes turned into the platform separator) is
      removed, the rest is split on the separator and filtered. Every segment
      survives the filter and holds no separator. */
  function Segments(path: string, resourceRoot: string, sep: char): (r: seq<string>)
    ensures forall k :: 0 <= k < |r| ==> KeepSegment(r[k]) && sep !in r[k]
  {
    FilterSegments(Split(ReplaceFirst(path, RootPrefix(resourceRoot, sep), ""), sep))
  }

  /** The path prefix the handler removes: the resource root plus `/`, written
      with the platform separator. */
  function RootPrefix(resourceRoot: string, sep: char): (r: string)
    ensures |r| == |resourceRoot| + 1 && r[|r| - 1] == sep
  {
    ReplaceChar(resourceRoot + "/", '/', sep)
  }

  /** For a path under the resource root, the segments are the filtered
      separator-delimited pieces of the path below the root. */
  lemma SegmentsBelowRoot(resourceRoot: string, sep: char, pieces: seq<string>)
    requires |pieces| >= 1 && forall k :: 0 <= k < |pieces| ==> sep !in pieces[k]
    ensures Segments(RootPrefix(resourceRoot, sep) + Join(pieces, sep), resourceRoot, sep) == FilterSegments(pieces)
  {
    var prefix := RootPrefix(resourceRoot, sep);
    var rest := Join(pieces, sep);
    var path := prefix + rest;
    assert OccursAt(path, prefix, 0) by {
      assert path[0..|prefix|] == prefix;
    }
    assert ReplaceFirst(path, prefix, "") == rest by {
      assert path[..0] + "" + path[|prefix|..] == rest;
    }
    SplitJoin(pieces, sep);
  }

  /** A change to `<root>/[category]/<name>/fxmanifest.lua` names the resource
      `<name>` and asks for a refresh when its timer fires. */
  lemma ManifestChangeSegments(resourceRoot: string, sep: char, category: string, name: string)
    requires sep !in category && sep !in name && sep !in ManifestFile
    requires category != [] && category[0] == '[' && KeepSegment(name)
    ensures var parts := Segments(RootPrefix(resourceRoot, sep) + (category + [sep] + name + [sep] + ManifestFile),
                                  resourceRoot, sep);
            FirstSegment(parts) == Some(name) && RefreshFlag(parts)
  {
    var pieces := [category, name, ManifestFile];
    JoinThree(category, name, ManifestFile, sep);
    SegmentsBelowRoot(resourceRoot, sep, pieces);
    FilterCategory(category, name);
  }

  lemma JoinThree(a: string, b: string, c: string, sep: char)
    ensures Join([a, b, c], sep) == a + [sep] + b + [sep] + c
  {
    assert [a, b, c][1..] == [b, c] && [b, c][1..] == [c];
    assert Join([c], sep) == c;
    assert Join([b, c], sep) == b + [sep] + c;
    assert Join([a, b, c], sep) == a + [sep] + (b + [sep] + c);
  }

  lemma FilterCategory(category: string, name: string)
    requires category != [] && category[0] == '[' && KeepSegment(name)
    ensures FilterSegments([category, name, ManifestFile]) == [name, ManifestFile]
  {
    assert [category, name, ManifestFile][1..] == [name, ManifestFile];
    assert [name, ManifestFile][1..] == [ManifestFile];
    assert KeepSegment(ManifestFile);
    assert FilterSegments([ManifestFile]) == [ManifestFile] by {
      assert [ManifestFile][1..] == [];
    }
  }

  /* ---------------- relevance ---------------- */

  /** The host as the relevance check sees it. */
  datatype Host = Host(
    currentResource: string,                        // GetCurrentResourceName()
    resourcePath: string -> string,                 // GetResourcePath(name)
    loadManifest: string -> Option<string>,         // LoadResourceFile(name, "fxmanifest.lua")
    glob: (seq<string>, string) -> seq<string>)     // globSync(patterns, { absolute: true, cwd })

  /** The glob patterns of a manifest: its shared, client and server scripts
      and its files, in that order; a missing key contributes nothing. */
  function ManifestPatterns(m: FxManifestParser.Manifest): (r: seq<string>)
    ensures forall p :: p in r <==>
              exists key :: key in m && key in TrackedKeys && p in m[key]
  {
    var shared, client, server, files :=
      FxManifestParser.Get(m, "shared_scripts"), FxManifestParser.Get(m, "client_scripts"),
      FxManifestParser.Get(m, "server_scripts"), FxManifestParser.Get(m, "files");
    var r := shared + client + server + files;
    assert forall p :: p in r <==> p in shared || p in client || p in server || p in files;
    r
  }

  const TrackedKeys: set<string> := {"shared_scripts", "client_scripts", "server_scripts", "files"}

  /** A manifest without any of the four keys yields no pattern. */
  lemma NoTrackedKeyNoPatterns(m: FxManifestParser.Manifest)
    requires forall key :: key in TrackedKeys ==> key !in m
    ensures ManifestPatterns(m) == []
  {
  }

  /** Values added under any other key do not reach the glob. */
  lemma PatternsIgnoreUntracked(m: FxManifestParser.Manifest, key: string, vals: seq<string>)
    requires key !in TrackedKeys
    ensures ManifestPatterns(FxManifestParser.Add(m, key, vals)) == ManifestPatterns(m)
  {
    var m' := FxManifestParser.Add(m, key, vals);
    assert forall t :: t in TrackedKeys ==> FxManifestParser.Get(m', t) == FxManifestParser.Get(m, t);
  }

  /** The order of the patterns: values added under `files` come last, and
      values added under `shared_scripts` come right after the earlier shared
      scripts, before everything else. */
  lemma PatternsOrder(m: FxManifestParser.Manifest, vals: seq<string>)
    ensures ManifestPatterns(FxManifestParser.Add(m, "files", vals)) == ManifestPatterns(m) + vals
    ensures ManifestPatterns(FxManifestParser.Add(m, "shared_scripts", vals))
         == FxManifestParser.Get(m, "shared_scripts") + vals
            + ManifestPatterns(m)[|FxManifestParser.Get(m, "shared_scripts")|..]
  {
    PatternsFilesLast(m, vals);
    PatternsSharedFirst(m, vals);
  }

  lemma PatternsFilesLast(m: FxManifestParser.Manifest, vals: seq<string>)
    ensures ManifestPatterns(FxManifestParser.Add(m, "files", vals)) == ManifestPatterns(m) + vals
  {
    var shared, client, server, files :=
      FxManifestParser.Get(m, "shared_scripts"), FxManifestParser.Get(m, "client_scripts"),
      FxManifestParser.Get(m, "server_scripts"), FxManifestParser.Get(m, "files");
    var m' := FxManifestParser.Add(m, "files", vals);
    assert FxManifestParser.Get(m', "shared_scripts") == shared;
    assert FxManifestParser.Get(m', "client_scripts") == client;
    assert FxManifestParser.Get(m', "server_scripts") == server;
    assert FxManifestParser.Get(m', "files") == files + vals;
    assert shared + client + server + (files + vals) == (shared + client + server + files) + vals;
  }

  lemma PatternsSharedFirst(m: FxManifestParser.Manifest, vals: seq<string>)
    ensures ManifestPatterns(FxManifestParser.Add(m, "shared_scripts", vals))
         == FxManifestParser.Get(m, "shared_scripts") + vals
            + ManifestPatterns(m)[|FxManifestParser.Get(m, "shared_scripts")|..]
  {
    var shared, client, server, files :=
      FxManifestParser.Get(m, "shared_scripts"), FxManifestParser.Get(m, "client_scripts"),
      FxManifestParser.Get(m, "server_scripts"), FxManifestParser.Get(m, "files");
    var m' := FxManifestParser.Add(m, "shared_scripts", vals);
    assert FxManifestParser.Get(m', "shared_scripts") == shared + vals;
    assert FxManifestParser.Get(m', "client_scripts") == client;
    assert FxManifestParser.Get(m', "server_scripts") == server;
    assert FxManifestParser.Get(m', "files") == files;
    PatternsAre(m, shared, client, server, files);
    PatternsAre(m', shared + vals, client, server, files);
    SharedSlice(shared, client, server, files, vals);
  }

  lemma PatternsAre(m: FxManifestParser.Manifest, shared: seq<string>, client: seq<string>,
                    server: seq<string>, files: seq<string>)
    requires FxManifestParser.Get(m, "shared_scripts") == shared
    requires FxManifestParser.Get(m, "client_scripts") == client
    requires FxManifestParser.Get(m, "server_scripts") == server
    requires FxManifestParser.Get(m, "files") == files
    ensures ManifestPatterns(m) == shared + client + server + files
  {
  }

  lemma SharedSlice(shared: seq<string>, client: seq<string>, server: seq<string>,
                    files: seq<string>, vals: seq<string>)
    ensures (shared + vals) + client + server + files
         == shared + vals + (shared + client + server + files)[|shared|..]
  {
    assert (shared + client + server + files)[|shared|..] == client + server + files;
  }

  /** Which guard of `shouldRestartResource` decided; only `Referenced` is
      `true` in the source. */
  datatype Verdict = NoResourceName | OwnResource | NoManifest | NoFilesFound | NotReferenced | Referenced

  /** `shouldRestartResource`, an ordered chain of guards: no name, the
      watchdog itself, no (or an empty) manifest, no file found by expanding the
      manifest's patterns; past those, the change is relevant iff the
      normalised path is one of the normalised expanded files or contains
      `<name>/fxmanifest.lua`. */
  function ShouldRestartResource(changedFilePath: string, resourceName: Option<string>, host: Host): (v: Verdict)
    ensures resourceName.None? || resourceName.value == "" ==> v == NoResourceName
    ensures resourceName.Some? && resourceName.value != "" && resourceName.value == host.currentResource ==>
              v == OwnResource
    ensures v == Referenced ==>
              && resourceName.Some? && resourceName.value != "" && resourceName.value != host.currentResource
              && var m := host.loadManifest(resourceName.value);
                 m.Some? && m.value != ""
  {
    if resourceName.None? || resourceName.value == "" then NoResourceName
    else
      var name := resourceName.value;
      if name == host.currentResource then OwnResource
      else
        var changed := Slp(changedFilePath);
        var resourcePath := Slp(host.resourcePath(name));
        var fileContent := host.loadManifest(name);
        if fileContent.None? || fileContent.value == "" then NoManifest
        else
          var manifestData := FxManifestParser.Parse(fileContent.value);
          var files := SlpAll(host.glob(ManifestPatterns(manifestData), resourcePath));
          if |files| == 0 then NoFilesFound
          else if changed in files || Contains(changed, name + "/" + ManifestFile) then Referenced
          else NotReferenced
  }

  /** Past the first three guards, the verdict depends on the manifest only
      through the files its patterns expand to: no file at all rules the change
      out even when it is the manifest itself; otherwise a change to
      `<name>/fxmanifest.lua` is always relevant, and any other change is
      relevant iff its normalised path is among the normalised files. */
  lemma ManifestAndFiles(changedFilePath: string, name: string, host: Host)
    requires name != "" && name != host.currentResource
    requires var m := host.loadManifest(name); m.Some? && m.value != ""
    ensures var files := host.glob(ManifestPatterns(FxManifestParser.Parse(host.loadManifest(name).value)),
                                   Slp(host.resourcePath(name)));
            var v := ShouldRestartResource(changedFilePath, Some(name), host);
            && (files == [] ==> v == NoFilesFound)
            && (files != [] && Contains(Slp(changedFilePath), name + "/" + ManifestFile) ==> v == Referenced)
            && (files != [] ==> (v == Referenced <==>
                  Slp(changedFilePath) in SlpAll(files) || Contains(Slp(changedFilePath), name + "/" + ManifestFile)))
  {
  }

  /** Backslashes in the changed path do not matter: the verdict for a path is
      the verdict for its normalised form. */
  lemma SlashInsensitive(changedFilePath: string, resourceName: Option<string>, host: Host)
    ensures ShouldRestartResource(changedFilePath, resourceName, host)
         == ShouldRestartResource(Slp(changedFilePath), resourceName, host)
  {
    SlpIdempotent(changedFilePath);
  }

  /* ---------------- restart protocol ---------------- */

  /** The host calls the watchdog makes, in order. */
  datatype Action = Stop(resource: string) | PermissionError | Refresh | Start(resource: string)

  /** `restartResource`: stop; if a refresh is wanted, either the permission
      error or `refresh`; then start. */
  function RestartActions(resourceName: string, shouldRefresh: bool, hasPermission: bool): (acts: seq<Action>)
    ensures |acts| == if shouldRefresh then 3 else 2
    ensures acts[0] == Stop(resourceName) && acts[|acts| - 1] == Start(resourceName)
    ensures forall k :: 0 <= k < |acts| && acts[k].Start? ==> k == |acts| - 1
    ensures forall k :: 0 <= k < |acts| && acts[k].Stop? ==> k == 0
    ensures Refresh in acts <==> shouldRefresh && hasPermission
    ensures PermissionError in acts <==> shouldRefresh && !hasPermission
  {
    [Stop(resourceName)]
      + (if shouldRefresh && !hasPermission then [PermissionError] else [])
      + (if shouldRefresh && hasPermission then [Refresh] else [])
      + [Start(resourceName)]
  }

  /** The refresh flag of the timer callback: the second filtered segment is
      `fxmanifest.lua` (`parts[1]` is `undefined` when there is none). */
  predicate RefreshFlag(parts: seq<string>)
  {
    |parts| > 1 && parts[1] == ManifestFile
  }

  /** A debounce timer waiting to fire; it holds the segments of the change
      that armed it. */
  datatype Pending = Pending(parts: seq<string>)

  /** The watchdog's state: the `ensureTimers` map and the log of host calls. */
  class Watchdog {
    const currentResource: string
    const resourceRoot: string
    const sep: char
    var timers: map<string, Pending>
    var log: seq<Action>

    /** Every pending entry belongs to a named resource other than the watchdog
        itself, and was armed by a change whose first segment is that name. */
    ghost predicate Valid()
      reads this
    {
      forall r :: r in timers ==>
        r != "" && r != currentResource && |timers[r].parts| > 0 && timers[r].parts[0] == r
    }

    constructor (currentResource: string, resourceRoot: string, sep: char)
      ensures Valid()
      ensures this.currentResource == currentResource && this.resourceRoot == resourceRoot && this.sep == sep
      ensures timers == map[] && log == []
    {
      this.currentResource := currentResource;
      this.resourceRoot := resourceRoot;
      this.sep := sep;
      timers := map[];
      log := [];
    }

    /** The `watch` handler: a relevant change arms the timer of its resource;
        any other change leaves everything as it was. `host` is the host as
        this event finds it: the manifest and the glob expansion are those of
        the moment of the change. */
    method HandleChange(path: string, host: Host)
      requires Valid() && host.currentResource == currentResource
      modifies this
      ensures Valid() && log == old(log)
      ensures var parts := Segments(path, resourceRoot, sep);
              var resourceName := FirstSegment(parts);
              timers == if ShouldRestartResource(path, resourceName, host) == Referenced
                        then old(timers)[resourceName.value := Pending(parts)]
                        else old(timers)
    {
      var parts := Segments(path, resourceRoot, sep);
      var resourceName := FirstSegment(parts);
      if ShouldRestartResource(path, resourceName, host) != Referenced {
        return;
      }
      Arm(resourceName.value, parts);
    }

    /** Arming cancels the pending timer of `resourceName`, if any, and installs
        the new one; the entries of other resources are untouched. */
    method Arm(resourceName: string, parts: seq<string>)
      requires Valid()
      requires resourceName != "" && resourceName != currentResource
      requires |parts| > 0 && parts[0] == resourceName
      modifies this
      ensures Valid() && log == old(log)
      ensures timers == old(timers)[resourceName := Pending(parts)]
    {
      if resourceName in timers {
        timers := timers - {resourceName};  // clearTimeout
      }
      timers := timers[resourceName := Pending(parts)];
    }

    /** The timer of `resourceName` fires: one restart of that resource, with
        the refresh flag of the change that armed it last, and then its entry,
        and only its entry, is removed. A timer never restarts an unnamed
        resource or the watchdog itself. */
    method Fire(resourceName: string, hasPermission: bool)
      requires Valid() && resourceName in timers
      modifies this
      ensures Valid()
      ensures resourceName != "" && resourceName != currentResource
      ensures timers == old(timers) - {resourceName}
      ensures log == old(log) + RestartActions(resourceName, RefreshFlag(old(timers)[resourceName].parts), hasPermission)
    {
      var parts := timers[resourceName].parts;
      RestartResource(resourceName, RefreshFlag(parts), hasPermission);
      timers := timers - {resourceName};
    }

    /** `restartResource`, with the result of `IsPrincipalAceAllowed` given. */
    method RestartResource(resourceName: string, shouldRefresh: bool, hasPermission: bool)
      modifies `log
      ensures log == old(log) + RestartActions(resourceName, shouldRefresh, hasPermission)
    {
      log := log + [Stop(resourceName)];
      if shouldRefresh && !hasPermission {
        log := log + [PermissionError];
      }
      if shouldRefresh && hasPermission {
        log := log + [Refresh];
      }
      log := log + [Start(resourceName)];
    }
  }

  /** Two relevant changes to one resource before its timer fires give exactly
      one restart, and it uses the refresh flag of the later change. */
  method DebounceKeepsLatest(w: Watchdog, resourceName: string, first: seq<string>, second: seq<string>, hasPermission: bool)
    requires w.Valid()
    requires resourceName != "" && resourceName != w.currentResource
    requires |first| > 0 && first[0] == resourceName && |second| > 0 && second[0] == resourceName
    modifies w
    ensures w.Valid()
    ensures w.log == old(w.log) + RestartActions(resourceName, RefreshFlag(second), hasPermission)
    ensures w.timers == old(w.timers) - {resourceName}
  {
    w.Arm(resourceName, first);
    w.Arm(resourceName, second);
    w.Fire(resourceName, hasPermission);
  }

  /** Relevant changes to two different resources arm two timers; each fires
      its own restart, and neither disturbs the other. */
  method IndependentResources(w: Watchdog, r1: string, parts1: seq<string>, r2: string, parts2: seq<string>,
                              hasPermission: bool)
    requires w.Valid() && r1 != r2
    requires r1 != "" && r1 != w.currentResource && |parts1| > 0 && parts1[0] == r1
    requires r2 != "" && r2 != w.currentResource && |parts2| > 0 && parts2[0] == r2
    modifies w
    ensures w.Valid()
    ensures w.log == old(w.log) + RestartActions(r1, RefreshFlag(parts1), hasPermission)
                                + RestartActions(r2, RefreshFlag(parts2), hasPermission)
    ensures w.timers == old(w.timers) - {r1, r2}
  {
    w.Arm(r1, parts1);
    w.Arm(r2, parts2);
    w.Fire(r1, hasPermission);
    w.Fire(r2, hasPermission);
  }
}
