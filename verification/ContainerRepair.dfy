/**
 Replacing the mounts of dead FUSE daemons that containers of a pod still hold.
 A container's mounts are stacks, bottom first, by mountpoint; a mount whose path lies below
 another one's is attached to it, and a lazy unmount of the other one takes it along.
 */
module ContainerRepair {
  import opened Common
  import opened MountInfo

  // ----- which mounts name the same filesystem -----

  predicate IsFuseFS(fstype: string) {
    |fstype| >= 4 && fstype[..4] == "fuse" && fstype != "fusectl"
  }

  /** What follows the colon of the first ":/" in a mount source; empty when there is none. */
  function FuseSourcePath(source: string): string
    decreases |source|
  {
    if |source| < 2 then ""
    else if source[0] == ':' && source[1] == '/' then source[1..]
    else FuseSourcePath(source[1..])
  }

  predicate SameFuseFilesystem(a: string, b: string) {
    a != "" && b != "" && (a == b || (FuseSourcePath(a) != "" && FuseSourcePath(a) == FuseSourcePath(b)))
  }

  /** A source as weed mount writes it: filer addresses, a colon, an absolute path. */
  predicate NamesPath(source: string, filers: string, path: string) {
    && source == filers + ":" + path && path != "" && path[0] == '/'
    && forall i | 0 <= i < |filers| - 1 :: !(filers[i] == ':' && filers[i + 1] == '/')
  }

  lemma {:induction false} SourcePathIsFilerPath(source: string, filers: string, path: string)
    requires NamesPath(source, filers, path)
    ensures FuseSourcePath(source) == path
    decreases |filers|
  {
    if filers == "" {
      assert source[1..] == path;
    } else {
      assert filers[1..] + ":" + path == source[1..];
      assert forall i | 0 <= i < |filers| - 1 :: filers[1..][i] == filers[i + 1];
      assert source[0] == filers[0] && source[1] == (if |filers| > 1 then filers[1] else ':');
      SourcePathIsFilerPath(source[1..], filers[1..], path);
    }
  }

  /** Whatever the filer addresses, two mounts are of one filesystem if and only if their filer paths are equal. */
  lemma SameFilesystemIffSamePath(a: string, filersA: string, pathA: string, b: string, filersB: string, pathB: string)
    requires NamesPath(a, filersA, pathA) && NamesPath(b, filersB, pathB)
    ensures SameFuseFilesystem(a, b) <==> pathA == pathB
  {
    SourcePathIsFilerPath(a, filersA, pathA);
    SourcePathIsFilerPath(b, filersB, pathB);
  }

  lemma SameFilesystemIsEquivalence(a: string, b: string, c: string)
    ensures a != "" <==> SameFuseFilesystem(a, a)
    ensures SameFuseFilesystem(a, b) ==> SameFuseFilesystem(b, a)
    ensures SameFuseFilesystem(a, b) && SameFuseFilesystem(b, c) ==> SameFuseFilesystem(a, c)
  {
  }

  // ----- a container's mounts -----

  datatype StatError = NoError | ENOTCONN | ECONNABORTED | OtherErrno | NotAnErrno

  /** What a statfs of a mount does within the wait. */
  datatype Reply = Silent | Answered(error: StatError)

  predicate IsStaleMount(error: StatError) {
    error == ENOTCONN || error == ECONNABORTED
  }

  datatype Mount = Mount(entry: Entry, reply: Reply)

  type Table = map<string, seq<Mount>>

  function StackAt(table: Table, path: string): seq<Mount> {
    if path in table then table[path] else []
  }

  /** A path strictly below another one. */
  predicate Below(above: string, path: string) {
    above != "" && if above == "/" then path != "/" && "/" <= path else above + "/" <= path
  }

  /** Below a path is what goes on with a slash, and below the root every other absolute path. */
  lemma BelowMeans(above: string, rest: string)
    requires above != "" && above != "/"
    ensures Below(above, above + "/" + rest)
    ensures (rest == "" || rest[0] != '/') ==> !Below(above, above + rest)
    ensures Below("/", "/" + rest) <==> rest != ""
  {
    assert above + "/" <= above + "/" + rest;
    assert "/" <= "/" + rest;
    assert (above + rest)[|above|..] == rest;
    if above + "/" <= above + rest {
      assert (above + rest)[|above|] == (above + "/")[|above|] == '/';
    }
  }

  lemma BelowIsTransitive(a: string, b: string, c: string)
    requires Below(a, b) && Below(b, c)
    ensures Below(a, c)
  {
    if a != "/" && b != "/" {
      assert b == c[..|b|] && a + "/" == b[..|a| + 1];
      assert c[..|a| + 1] == a + "/";
    }
  }

  lemma BelowIsStrict(a: string)
    ensures !Below(a, a)
  {
  }

  /** A lazy unmount of the topmost mount at a path disconnects everything below it. */
  function Detached(table: Table, path: string): Table
    requires StackAt(table, path) != []
  {
    var stack := StackAt(table, path);
    (map q | q in table && !Below(path, q) :: table[q])[path := stack[..|stack| - 1]]
  }

  /** A statfs reaches the topmost mount; without one, a directory that answers. */
  function ReplyAt(table: Table, path: string): Reply {
    var stack := StackAt(table, path);
    if stack == [] then Answered(NoError) else stack[|stack| - 1].reply
  }

  predicate Candidate(e: Entry, staging: Mount) {
    && IsFuseFS(e.fstype) && e.device != staging.entry.device
    && SameFuseFilesystem(e.source, staging.entry.source)
  }

  predicate Dead(reply: Reply) {
    reply.Answered? && IsStaleMount(reply.error)
  }

  /** The mounts a pass is for: of the staged filesystem, on another device, answering that they are dead. */
  predicate NeedsRepair(mount: Mount, staging: Mount) {
    Candidate(mount.entry, staging) && Dead(mount.reply)
  }

  /** Whether "ro" is one of the comma-separated options; the first of them already begun. */
  predicate HasReadOnly(begun: string, options: string)
    decreases |options|
  {
    if options == "" then begun == "ro"
    else if options[0] == ',' then begun == "ro" || HasReadOnly("", options[1..])
    else HasReadOnly(begun + [options[0]], options[1..])
  }

  predicate ReadOnly(e: Entry) {
    HasReadOnly("", e.options)
  }

  /** The options as the kernel prints them. */
  function JoinCommas(options: seq<string>): string {
    if options == [] then "" else if |options| == 1 then options[0] else options[0] + "," + JoinCommas(options[1..])
  }

  /** A non-empty list of options, none of which has a comma in it. */
  predicate CommaFree(options: seq<string>) {
    options != [] && forall i | 0 <= i < |options| :: ',' !in options[i]
  }

  lemma {:induction false} FirstOptionEnds(begun: string, option: string, rest: string)
    requires ',' !in option
    ensures HasReadOnly(begun, option) <==> begun + option == "ro"
    ensures HasReadOnly(begun, option + "," + rest) <==> begun + option == "ro" || HasReadOnly("", rest)
    decreases |option|
  {
    var all := option + "," + rest;
    if option == "" {
      assert begun + option == begun && all[1..] == rest;
    } else {
      FirstOptionEnds(begun + [option[0]], option[1..], rest);
      assert all[1..] == option[1..] + "," + rest && all[0] == option[0];
      assert begun + [option[0]] + option[1..] == begun + option;
    }
  }

  /** Whatever the options and their order: a mount is read-only if and only if "ro" is one of them. */
  lemma {:induction false} ReadOnlyIffListed(options: seq<string>)
    requires CommaFree(options)
    ensures HasReadOnly("", JoinCommas(options)) <==> "ro" in options
  {
    var rest := options[1..];
    if rest == [] {
      FirstOptionEnds("", options[0], "");
      assert options == [options[0]] && "" + options[0] == options[0];
    } else {
      FirstOptionEnds("", options[0], JoinCommas(rest));
      ReadOnlyIffListed(rest);
      assert options == [options[0]] + rest && "" + options[0] == options[0];
    }
  }

  /**
   The mounts a pass is for, spelled out for sources as weed mount writes them: a FUSE mount other
   than the control filesystem, of the staged filer path whatever its filers, on another device,
   that answers with one of the two errors of a connection that is gone.
   */
  lemma RepairIsForDeadMountsOfThePath(mount: Mount, staging: Mount, filers: string, path: string, stagingFilers: string, stagingPath: string)
    requires NamesPath(mount.entry.source, filers, path) && NamesPath(staging.entry.source, stagingFilers, stagingPath)
    ensures NeedsRepair(mount, staging) <==>
              && (exists kind: string :: mount.entry.fstype == "fuse" + kind && kind != "ctl")
              && path == stagingPath && mount.entry.device != staging.entry.device
              && mount.reply in {Answered(ENOTCONN), Answered(ECONNABORTED)}
  {
    SameFilesystemIffSamePath(mount.entry.source, filers, path, staging.entry.source, stagingFilers, stagingPath);
    FuseKinds(mount.entry.fstype);
  }

  lemma FuseKinds(fstype: string)
    ensures IsFuseFS(fstype) <==> exists kind: string :: fstype == "fuse" + kind && kind != "ctl"
  {
    if IsFuseFS(fstype) {
      assert fstype == "fuse" + fstype[4..];
      assert "fuse" + "ctl" == "fusectl";
    }
    forall kind: string | fstype == "fuse" + kind && kind != "ctl"
      ensures IsFuseFS(fstype)
    {
      assert fstype[4..] == kind && "fusectl"[4..] == "ctl";
    }
  }

  // ----- a bind of the staging mount -----

  /** How far a replacement came: the source opened, the old mount detached, the new one moved in, made read-only. */
  datatype Outcome = Outcome(sourced: bool, detached: bool, moved: bool, madeReadOnly: bool)

  const SUCCESS := Outcome(true, true, true, true)

  function BindRoot(staging: Mount, subPath: string): string {
    if subPath == "" || subPath == "/" then staging.entry.root
    else if staging.entry.root == "/" then subPath
    else staging.entry.root + subPath
  }

  function Bind(staging: Mount, path: string, subPath: string, options: string): Mount {
    Mount(staging.entry.(mountpoint := path, root := BindRoot(staging, subPath), options := options), staging.reply)
  }

  /** A bind shows the directory of the staging mount, or what lies below it at the sub-path. */
  lemma BindShowsSubPath(staging: Mount, path: string, subPath: string, options: string)
    requires staging.entry.root != "" && (subPath == "" || subPath[0] == '/')
    ensures var root := Bind(staging, path, subPath, options).entry.root;
            if subPath == "" || subPath == "/" then root == staging.entry.root
            else Below(staging.entry.root, root) && |root| >= |subPath| && root[|root| - |subPath|..] == subPath
  {
    var root := staging.entry.root;
    if subPath != "" && subPath != "/" {
      assert subPath == "/" + subPath[1..];
      if root != "/" {
        assert root + subPath == root + "/" + subPath[1..];
        BelowMeans(root, subPath[1..]);
      }
    }
  }

  class Container {
    var table: Table

    /**
     The detach takes what is mounted below along.  A failure after it loses the mount; a read-only
     flag that cannot be set does not count as failure.
     */
    method RemountViaSetns(path: string, staging: Mount, subPath: string, readOnly: bool, outcome: Outcome) returns (ok: bool)
      modifies this
      ensures ok == (outcome.sourced && outcome.moved)
      ensures table == Remounted(old(table), path, staging, subPath, readOnly, outcome)
    {
      if !outcome.sourced {
        return false;
      }
      if outcome.detached && StackAt(table, path) != [] {
        table := Detached(table, path);
      }
      if !outcome.moved {
        return false;
      }
      var bind := Bind(staging, path, subPath, staging.entry.options);
      if readOnly && outcome.madeReadOnly {
        bind := Bind(staging, path, subPath, "ro");
      }
      table := table[path := StackAt(table, path) + [bind]];
      return true;
    }

    /** The container's share of a pass: entries are the mounts it held when they were listed. */
    method Repair(staging: Mount, entries: seq<Entry>, outcomes: seq<Outcome>) returns (repaired: nat)
      requires |outcomes| == |entries|
      modifies this
      ensures Pass(old(table), staging, entries, outcomes) == PassResult(table, repaired)
    {
      repaired := 0;
      ghost var was := table;
      for k := 0 to |entries|
        invariant Pass(was, staging, entries[..k], outcomes[..k]) == PassResult(table, repaired)
      {
        assert entries[..k + 1][..k] == entries[..k] && outcomes[..k + 1][..k] == outcomes[..k];
        var e := entries[k];
        if !IsFuseFS(e.fstype) || e.device == staging.entry.device || !SameFuseFilesystem(e.source, staging.entry.source) {
          continue;
        }
        var reply := ReplyAt(table, e.mountpoint);
        if reply.Silent? {
          continue;
        }
        if !IsStaleMount(reply.error) {
          continue;
        }
        var ok := RemountViaSetns(e.mountpoint, staging, e.root, ReadOnly(e), outcomes[k]);
        if !ok {
          continue;
        }
        repaired := repaired + 1;
      }
      assert entries[..|entries|] == entries && outcomes[..|outcomes|] == outcomes;
    }
  }

  function Remounted(table: Table, path: string, staging: Mount, subPath: string, readOnly: bool, outcome: Outcome): Table {
    if !outcome.sourced then table
    else
      var left := if outcome.detached && StackAt(table, path) != [] then Detached(table, path) else table;
      if outcome.moved then
        var options := if readOnly && outcome.madeReadOnly then "ro" else staging.entry.options;
        left[path := StackAt(left, path) + [Bind(staging, path, subPath, options)]]
      else left
  }

  datatype PassResult = PassResult(table: Table, repaired: nat)

  function Pass(table: Table, staging: Mount, entries: seq<Entry>, outcomes: seq<Outcome>): PassResult
    requires |outcomes| == |entries|
  {
    if entries == [] then PassResult(table, 0)
    else
      var n := |entries| - 1;
      var before, e := Pass(table, staging, entries[..n], outcomes[..n]), entries[n];
      if Candidate(e, staging) && Dead(ReplyAt(before.table, e.mountpoint)) then
        PassResult(Remounted(before.table, e.mountpoint, staging, e.root, ReadOnly(e), outcomes[n]),
                   before.repaired + if outcomes[n].sourced && outcomes[n].moved then 1 else 0)
      else before
  }

  // ----- what a pass does -----

  /** Every mountpoint has at most one mount, and the entries list them all. */
  predicate Lists(entries: seq<Entry>, table: Table) {
    && DistinctMountpoints(entries)
    && Listed(entries, table)
    && (forall path | path in table && table[path] != [] :: exists i | 0 <= i < |entries| :: entries[i].mountpoint == path)
  }

  predicate DistinctMountpoints(entries: seq<Entry>) {
    forall i, j | 0 <= i < j < |entries| :: entries[i].mountpoint != entries[j].mountpoint
  }

  predicate Listed(entries: seq<Entry>, table: Table) {
    forall i | 0 <= i < |entries| :: ListedAlone(entries[i], table)
  }

  predicate ListedAlone(e: Entry, table: Table) {
    var stack := StackAt(table, e.mountpoint);
    |stack| == 1 && stack[0].entry == e
  }

  /** What a pass makes of one mount. */
  function Fate(mount: Mount, staging: Mount, outcome: Outcome): seq<Mount> {
    var e := mount.entry;
    if !NeedsRepair(mount, staging) || !outcome.sourced then [mount]
    else
      (if outcome.detached then [] else [mount])
      + (if outcome.moved then
           [Bind(staging, e.mountpoint, e.root, if ReadOnly(e) && outcome.madeReadOnly then "ro" else staging.entry.options)]
         else [])
  }

  lemma RemountedElsewhere(table: Table, staging: Mount, e: Entry, outcome: Outcome, path: string)
    requires path != e.mountpoint && !Below(e.mountpoint, path)
    ensures StackAt(Remounted(table, e.mountpoint, staging, e.root, ReadOnly(e), outcome), path) == StackAt(table, path)
  {
  }

  lemma RemountedBelow(table: Table, staging: Mount, e: Entry, outcome: Outcome, path: string)
    requires Below(e.mountpoint, path) && StackAt(table, e.mountpoint) != []
    ensures StackAt(Remounted(table, e.mountpoint, staging, e.root, ReadOnly(e), outcome), path) ==
            if outcome.sourced && outcome.detached then [] else StackAt(table, path)
  {
    BelowIsStrict(path);
  }

  lemma RemountedHere(table: Table, staging: Mount, outcome: Outcome, mount: Mount)
    requires StackAt(table, mount.entry.mountpoint) == [mount]
    ensures var e := mount.entry;
            && ReplyAt(table, e.mountpoint) == mount.reply
            && (NeedsRepair(mount, staging) ==>
                  StackAt(Remounted(table, e.mountpoint, staging, e.root, ReadOnly(e), outcome), e.mountpoint) == Fate(mount, staging, outcome))
            && (!NeedsRepair(mount, staging) ==> Fate(mount, staging, outcome) == [mount])
  {
    BelowIsStrict(mount.entry.mountpoint);
  }

  /** The mount an entry lists. */
  function MountOf(table: Table, e: Entry): Mount
    requires ListedAlone(e, table)
  {
    StackAt(table, e.mountpoint)[0]
  }

  /** Some listed mount strictly above the path is to be repaired and is detached for it. */
  predicate TakenAlong(table: Table, staging: Mount, entries: seq<Entry>, outcomes: seq<Outcome>, path: string)
    requires |outcomes| == |entries| && Listed(entries, table)
  {
    exists i | 0 <= i < |entries| :: Takes(table, staging, entries, outcomes, i, path)
  }

  predicate Takes(table: Table, staging: Mount, entries: seq<Entry>, outcomes: seq<Outcome>, i: nat, path: string)
    requires i < |entries| == |outcomes| && Listed(entries, table)
  {
    assert ListedAlone(entries[i], table);
    && Below(entries[i].mountpoint, path) && NeedsRepair(MountOf(table, entries[i]), staging)
    && outcomes[i].sourced && outcomes[i].detached
  }

  lemma TakenAlongFront(table: Table, staging: Mount, entries: seq<Entry>, outcomes: seq<Outcome>, path: string)
    requires |outcomes| == |entries| > 0 && Listed(entries, table)
    ensures var n := |entries| - 1;
            && Listed(entries[..n], table)
            && (TakenAlong(table, staging, entries, outcomes, path) <==>
                TakenAlong(table, staging, entries[..n], outcomes[..n], path) || Takes(table, staging, entries, outcomes, n, path))
  {
    var n := |entries| - 1;
    assert forall i | 0 <= i < n :: entries[..n][i] == entries[i] && outcomes[..n][i] == outcomes[i];
    assert Listed(entries[..n], table) by {
      assert forall i | 0 <= i < n :: ListedAlone(entries[i], table);
    }
    assert forall i | 0 <= i < n ::
        Takes(table, staging, entries, outcomes, i, path) <==> Takes(table, staging, entries[..n], outcomes[..n], i, path);
  }

  /** What is taken along with a mountpoint is taken along with whatever lies above that. */
  lemma TakenAlongReachesDown(table: Table, staging: Mount, entries: seq<Entry>, outcomes: seq<Outcome>, above: string, path: string)
    requires |outcomes| == |entries| && Listed(entries, table)
    requires TakenAlong(table, staging, entries, outcomes, above) && Below(above, path)
    ensures TakenAlong(table, staging, entries, outcomes, path)
  {
    var i :| 0 <= i < |entries| && Takes(table, staging, entries, outcomes, i, above);
    BelowIsTransitive(entries[i].mountpoint, above, path);
    assert Takes(table, staging, entries, outcomes, i, path);
  }

  /** What a pass leaves at a path: nothing below a mount it detached, and elsewhere each mount's own fate. */
  predicate DecidedAt(table: Table, staging: Mount, entries: seq<Entry>, outcomes: seq<Outcome>, path: string, now: seq<Mount>)
    requires |outcomes| == |entries| && Listed(entries, table)
  {
    if TakenAlong(table, staging, entries, outcomes, path) then now == []
    else
      && ((forall i | 0 <= i < |entries| :: entries[i].mountpoint != path) ==> now == StackAt(table, path))
      && forall i | 0 <= i < |entries| && entries[i].mountpoint == path ::
           ListedAlone(entries[i], table) && now == Fate(MountOf(table, entries[i]), staging, outcomes[i])
  }

  /** One more entry, elsewhere, that takes nothing along, leaves what was decided. */
  lemma DecidedWithOneMore(table: Table, staging: Mount, entries: seq<Entry>, outcomes: seq<Outcome>, path: string, now: seq<Mount>)
    requires |outcomes| == |entries| > 0 && Listed(entries, table) && entries[|entries| - 1].mountpoint != path
    requires Listed(entries[..|entries| - 1], table)
    requires DecidedAt(table, staging, entries[..|entries| - 1], outcomes[..|entries| - 1], path, now)
    ensures Takes(table, staging, entries, outcomes, |entries| - 1, path) || DecidedAt(table, staging, entries, outcomes, path, now)
  {
    var n := |entries| - 1;
    TakenAlongFront(table, staging, entries, outcomes, path);
    if !Takes(table, staging, entries, outcomes, n, path) && !TakenAlong(table, staging, entries, outcomes, path) {
      forall i | 0 <= i < |entries| && entries[i].mountpoint == path
        ensures ListedAlone(entries[i], table) && now == Fate(MountOf(table, entries[i]), staging, outcomes[i])
      {
        assert entries[..n][i] == entries[i] && outcomes[..n][i] == outcomes[i];
      }
      if forall i | 0 <= i < |entries| :: entries[i].mountpoint != path {
        assert forall i | 0 <= i < n :: entries[..n][i] == entries[i];
      }
    }
  }

  /** One step of a pass. */
  function Step(table: Table, staging: Mount, e: Entry, outcome: Outcome): Table {
    if Candidate(e, staging) && Dead(ReplyAt(table, e.mountpoint))
    then Remounted(table, e.mountpoint, staging, e.root, ReadOnly(e), outcome) else table
  }

  /** A step at a mountpoint whose mount is there: its own fate, and that of another path. */
  lemma StepDecides(table: Table, staging: Mount, outcome: Outcome, mount: Mount, path: string)
    requires StackAt(table, mount.entry.mountpoint) == [mount]
    ensures var e := mount.entry;
            var after := Step(table, staging, e, outcome);
            && StackAt(after, e.mountpoint) == Fate(mount, staging, outcome)
            && (path != e.mountpoint ==>
                  StackAt(after, path) ==
                  if Below(e.mountpoint, path) && NeedsRepair(mount, staging) && outcome.sourced && outcome.detached
                  then [] else StackAt(table, path))
  {
    RemountedHere(table, staging, outcome, mount);
    if Below(mount.entry.mountpoint, path) {
      RemountedBelow(table, staging, mount.entry, outcome, path);
    } else if path != mount.entry.mountpoint {
      RemountedElsewhere(table, staging, mount.entry, outcome, path);
    }
  }

  lemma PassSteps(table: Table, staging: Mount, entries: seq<Entry>, outcomes: seq<Outcome>)
    requires |outcomes| == |entries| > 0
    ensures var n := |entries| - 1;
            Pass(table, staging, entries, outcomes).table ==
            Step(Pass(table, staging, entries[..n], outcomes[..n]).table, staging, entries[n], outcomes[n])
  {
  }

  /** The mountpoint of the last entry: nothing if it was taken along, or its mount's fate. */
  lemma DecidedAtLast(table: Table, staging: Mount, entries: seq<Entry>, outcomes: seq<Outcome>, now: seq<Mount>)
    requires |outcomes| == |entries| > 0 && DistinctMountpoints(entries) && Listed(entries, table)
    requires var n := |entries| - 1;
             && Listed(entries[..n], table) && ListedAlone(entries[n], table)
             && now == if TakenAlong(table, staging, entries[..n], outcomes[..n], entries[n].mountpoint) then []
                       else Fate(MountOf(table, entries[n]), staging, outcomes[n])
    ensures DecidedAt(table, staging, entries, outcomes, entries[|entries| - 1].mountpoint, now)
  {
    TakenAlongFront(table, staging, entries, outcomes, entries[|entries| - 1].mountpoint);
    BelowIsStrict(entries[|entries| - 1].mountpoint);
  }

  /** What was decided for the mountpoint of the last entry before it is reached. */
  lemma BeforeLast(table: Table, staging: Mount, entries: seq<Entry>, outcomes: seq<Outcome>, now: seq<Mount>)
    requires |outcomes| == |entries| > 0 && DistinctMountpoints(entries) && Listed(entries, table)
    requires Listed(entries[..|entries| - 1], table)
    requires DecidedAt(table, staging, entries[..|entries| - 1], outcomes[..|entries| - 1], entries[|entries| - 1].mountpoint, now)
    ensures var n := |entries| - 1;
            now == if TakenAlong(table, staging, entries[..n], outcomes[..n], entries[n].mountpoint) then []
                   else StackAt(table, entries[n].mountpoint)
  {
    assert forall i | 0 <= i < |entries| - 1 :: entries[..|entries| - 1][i] == entries[i];
  }

  /** A pass decides each mount by itself and by the mounts above it, whatever fails. */
  lemma {:induction false} PassDecidesEachMount(table: Table, staging: Mount, entries: seq<Entry>, outcomes: seq<Outcome>, path: string)
    requires |outcomes| == |entries| && DistinctMountpoints(entries) && Listed(entries, table)
    ensures DecidedAt(table, staging, entries, outcomes, path, StackAt(Pass(table, staging, entries, outcomes).table, path))
  {
    if entries != [] {
      var n := |entries| - 1;
      var front, done, above := entries[..n], outcomes[..n], entries[n].mountpoint;
      var before := Pass(table, staging, front, done).table;
      TakenAlongFront(table, staging, entries, outcomes, path);
      PassDecidesEachMount(table, staging, front, done, above);
      BeforeLast(table, staging, entries, outcomes, StackAt(before, above));
      PassSteps(table, staging, entries, outcomes);
      assert ListedAlone(entries[n], table) && StackAt(table, above) == [MountOf(table, entries[n])];
      if !TakenAlong(table, staging, front, done, above) {
        StepDecides(before, staging, outcomes[n], MountOf(table, entries[n]), path);
      }
      if path == above {
        DecidedAtLast(table, staging, entries, outcomes, StackAt(Step(before, staging, entries[n], outcomes[n]), path));
      } else {
        PassDecidesEachMount(table, staging, front, done, path);
        DecidedWithOneMore(table, staging, entries, outcomes, path, StackAt(before, path));
        if Takes(table, staging, entries, outcomes, n, path) && TakenAlong(table, staging, front, done, above) {
          TakenAlongReachesDown(table, staging, front, done, above, path);
        }
      }
    }
  }

  /** Some mount strictly above the path is repaired. */
  predicate RepairedAbove(table: Table, staging: Mount, entries: seq<Entry>, path: string)
    requires Listed(entries, table)
  {
    exists i | 0 <= i < |entries| ::
      Below(entries[i].mountpoint, path) && ListedAlone(entries[i], table) && NeedsRepair(MountOf(table, entries[i]), staging)
  }

  /** The mounts of a list that a pass replaces; those that one replaced before has taken along are lost. */
  function Repairs(table: Table, staging: Mount, entries: seq<Entry>): nat
    requires Listed(entries, table)
  {
    if entries == [] then 0
    else
      var n := |entries| - 1;
      assert ListedAlone(entries[n], table) && Listed(entries[..n], table);
      Repairs(table, staging, entries[..n])
      + if NeedsRepair(MountOf(table, entries[n]), staging) && !RepairedAbove(table, staging, entries[..n], entries[n].mountpoint) then 1 else 0
  }

  /** With nothing failing, what is taken along is what lies below a repaired mount. */
  lemma TakenAlongOnSuccess(table: Table, staging: Mount, entries: seq<Entry>, outcomes: seq<Outcome>, path: string)
    requires |outcomes| == |entries| && Listed(entries, table)
    requires forall i | 0 <= i < |outcomes| :: outcomes[i] == SUCCESS
    ensures TakenAlong(table, staging, entries, outcomes, path) <==> RepairedAbove(table, staging, entries, path)
  {
    if RepairedAbove(table, staging, entries, path) {
      var i :| 0 <= i < |entries| && Below(entries[i].mountpoint, path) && ListedAlone(entries[i], table)
               && NeedsRepair(MountOf(table, entries[i]), staging);
      assert Takes(table, staging, entries, outcomes, i, path);
    }
    if TakenAlong(table, staging, entries, outcomes, path) {
      var i :| 0 <= i < |entries| && Takes(table, staging, entries, outcomes, i, path);
      assert ListedAlone(entries[i], table);
    }
  }

  lemma LastCounts(table: Table, staging: Mount, entries: seq<Entry>, outcomes: seq<Outcome>, before: PassResult)
    requires |outcomes| == |entries| > 0 && Listed(entries, table) && outcomes[|entries| - 1] == SUCCESS
    requires var n := |entries| - 1;
             && Listed(entries[..n], table) && ListedAlone(entries[n], table)
             && before == Pass(table, staging, entries[..n], outcomes[..n])
             && StackAt(before.table, entries[n].mountpoint) ==
                if RepairedAbove(table, staging, entries[..n], entries[n].mountpoint) then [] else StackAt(table, entries[n].mountpoint)
    ensures var n := |entries| - 1;
            Pass(table, staging, entries, outcomes).repaired ==
            before.repaired + Repairs(table, staging, entries) - Repairs(table, staging, entries[..n])
  {
    var e := entries[|entries| - 1];
    assert StackAt(table, e.mountpoint) == [MountOf(table, e)];
  }

  lemma {:induction false} PassCountsRepairs(table: Table, staging: Mount, entries: seq<Entry>, outcomes: seq<Outcome>)
    requires |outcomes| == |entries| && DistinctMountpoints(entries) && Listed(entries, table)
    requires forall i | 0 <= i < |outcomes| :: outcomes[i] == SUCCESS
    ensures Pass(table, staging, entries, outcomes).repaired == Repairs(table, staging, entries)
  {
    if entries != [] {
      var n := |entries| - 1;
      assert ListedAlone(entries[n], table) && Listed(entries[..n], table);
      var before := Pass(table, staging, entries[..n], outcomes[..n]);
      PassCountsRepairs(table, staging, entries[..n], outcomes[..n]);
      PassDecidesEachMount(table, staging, entries[..n], outcomes[..n], entries[n].mountpoint);
      BeforeLast(table, staging, entries, outcomes, StackAt(before.table, entries[n].mountpoint));
      TakenAlongOnSuccess(table, staging, entries[..n], outcomes[..n], entries[n].mountpoint);
      LastCounts(table, staging, entries, outcomes, before);
    }
  }

  /** The live mount a repaired one becomes: same mountpoint, same directory, read-only exactly if "ro" was among its options. */
  ghost predicate Replaces(now: Mount, was: Mount, staging: Mount) {
    && now.reply == staging.reply && now.entry.device == staging.entry.device && now.entry.source == staging.entry.source
    && now.entry.mountpoint == was.entry.mountpoint
    && now.entry.root == (if was.entry.root == "" then "/" else was.entry.root)
    && (forall options | CommaFree(options) && was.entry.options == JoinCommas(options) ::
          now.entry.options == if "ro" in options then "ro" else staging.entry.options)
  }

  lemma FlagIsKept(was: Mount, staging: Mount)
    ensures forall options | CommaFree(options) && was.entry.options == JoinCommas(options) :: ReadOnly(was.entry) <==> "ro" in options
  {
    forall options | CommaFree(options) && was.entry.options == JoinCommas(options)
      ensures ReadOnly(was.entry) <==> "ro" in options
    {
      ReadOnlyIffListed(options);
    }
  }

  /**
   What becomes of a mount: one that needs repair is replaced in place, and any other one survives as
   it is, if and only if no repaired mountpoint lies strictly above it; otherwise it is lost.
   */
  lemma PassReplacesExactlyDeadMounts(
      table: Table, staging: Mount, entries: seq<Entry>, outcomes: seq<Outcome>, path: string)
    requires Lists(entries, table) && |outcomes| == |entries| && staging.entry.root == "/"
    requires forall i | 0 <= i < |outcomes| :: outcomes[i] == SUCCESS
    ensures var was, now := StackAt(table, path), StackAt(Pass(table, staging, entries, outcomes).table, path);
            && |now| <= |was| <= 1
            && (|was| == 1 ==> (now == [] <==> RepairedAbove(table, staging, entries, path)))
            && (|now| == 1 && NeedsRepair(was[0], staging) ==> Replaces(now[0], was[0], staging))
            && (|now| == 1 && !NeedsRepair(was[0], staging) ==> now == was)
  {
    PassDecidesEachMount(table, staging, entries, outcomes, path);
    TakenAlongOnSuccess(table, staging, entries, outcomes, path);
    if i: nat :| i < |entries| && entries[i].mountpoint == path {
      assert ListedAlone(entries[i], table);
      FlagIsKept(MountOf(table, entries[i]), staging);
    }
  }

  /** A second pass, whenever it lists the mounts and whatever would happen to it, replaces nothing. */
  lemma SecondPassReplacesNothing(
      table: Table, staging: Mount, entries: seq<Entry>, outcomes: seq<Outcome>,
      later: seq<Entry>, laterOutcomes: seq<Outcome>)
    requires Lists(entries, table) && |outcomes| == |entries| && staging.entry.root == "/"
    requires forall i | 0 <= i < |outcomes| :: outcomes[i] == SUCCESS
    requires var after := Pass(table, staging, entries, outcomes).table;
             Lists(later, after) && |laterOutcomes| == |later|
    ensures var after := Pass(table, staging, entries, outcomes).table;
            Pass(after, staging, later, laterOutcomes) == PassResult(after, 0)
  {
    var after := Pass(table, staging, entries, outcomes).table;
    forall i | 0 <= i < |later|
      ensures AloneAndServing(later[i], after, staging)
    {
      assert ListedAlone(later[i], after);
      PassReplacesExactlyDeadMounts(table, staging, entries, outcomes, later[i].mountpoint);
    }
    NothingToRepair(after, staging, later, laterOutcomes);
  }

  predicate AloneAndServing(e: Entry, table: Table, staging: Mount) {
    ListedAlone(e, table) && !NeedsRepair(StackAt(table, e.mountpoint)[0], staging)
  }

  lemma {:induction false} NothingToRepair(table: Table, staging: Mount, entries: seq<Entry>, outcomes: seq<Outcome>)
    requires |outcomes| == |entries|
    requires forall i | 0 <= i < |entries| :: AloneAndServing(entries[i], table, staging)
    ensures Pass(table, staging, entries, outcomes) == PassResult(table, 0)
  {
    if entries != [] {
      var n := |entries| - 1;
      NothingToRepair(table, staging, entries[..n], outcomes[..n]);
    }
  }

  // ----- mounts nested below a repaired one -----

  /** A container with two mounts. */
  function TwoMounts(outer: Mount, inner: Mount): Table {
    map[outer.entry.mountpoint := [outer], inner.entry.mountpoint := [inner]]
  }

  lemma TwoMountsAreListed(outer: Mount, inner: Mount)
    requires Below(outer.entry.mountpoint, inner.entry.mountpoint)
    ensures var table := TwoMounts(outer, inner);
            && ListedAlone(outer.entry, table) && ListedAlone(inner.entry, table)
            && MountOf(table, outer.entry) == outer && MountOf(table, inner.entry) == inner
    ensures outer.entry.mountpoint != inner.entry.mountpoint
  {
    BelowIsStrict(outer.entry.mountpoint);
  }

  /**
   A mount nested below a dead one of the volume is lost with it, although it serves and belongs to
   somebody else: one mount per mountpoint, and nothing fails.
   */
  lemma NestedForeignMountIsLost(staging: Mount, outer: Mount, inner: Mount)
    requires NeedsRepair(outer, staging) && !Candidate(inner.entry, staging)
    requires Below(outer.entry.mountpoint, inner.entry.mountpoint)
    ensures StackAt(Pass(TwoMounts(outer, inner), staging, [outer.entry, inner.entry], [SUCCESS, SUCCESS]).table, inner.entry.mountpoint) == []
  {
    TwoMountsAreListed(outer, inner);
    NestedMountIsLost(TwoMounts(outer, inner), staging, [outer.entry, inner.entry], 0, inner.entry.mountpoint);
  }

  /**
   A dead mount of a sub-path nested below another dead mount of the volume is lost as well, whichever
   comes first: bound anew and then taken along, or taken along and then no longer dead.
   */
  lemma NestedSubPathIsLost(staging: Mount, outer: Mount, inner: Mount)
    requires NeedsRepair(outer, staging) && NeedsRepair(inner, staging)
    requires Below(outer.entry.mountpoint, inner.entry.mountpoint)
    ensures var table, path := TwoMounts(outer, inner), inner.entry.mountpoint;
            && StackAt(Pass(table, staging, [outer.entry, inner.entry], [SUCCESS, SUCCESS]).table, path) == []
            && StackAt(Pass(table, staging, [inner.entry, outer.entry], [SUCCESS, SUCCESS]).table, path) == []
  {
    TwoMountsAreListed(outer, inner);
    NestedMountIsLost(TwoMounts(outer, inner), staging, [outer.entry, inner.entry], 0, inner.entry.mountpoint);
    NestedMountIsLost(TwoMounts(outer, inner), staging, [inner.entry, outer.entry], 1, inner.entry.mountpoint);
  }

  lemma NestedMountIsLost(table: Table, staging: Mount, entries: seq<Entry>, i: nat, path: string)
    requires |entries| == 2 && entries[0].mountpoint != entries[1].mountpoint && Listed(entries, table)
    requires i < 2 && ListedAlone(entries[i], table) && NeedsRepair(MountOf(table, entries[i]), staging) && Below(entries[i].mountpoint, path)
    ensures StackAt(Pass(table, staging, entries, [SUCCESS, SUCCESS]).table, path) == []
  {
    PassDecidesEachMount(table, staging, entries, [SUCCESS, SUCCESS], path);
    TakenAlongOnSuccess(table, staging, entries, [SUCCESS, SUCCESS], path);
  }

  // ----- stacked mounts and failures -----

  /** A mountpoint that does not answer dead keeps what it holds, or loses it to one above. */
  lemma {:induction false} QuietMountpointsAreNotReplaced(
      table: Table, staging: Mount, entries: seq<Entry>, outcomes: seq<Outcome>, path: string)
    requires |outcomes| == |entries| && !Dead(ReplyAt(table, path))
    ensures var now := StackAt(Pass(table, staging, entries, outcomes).table, path); now == StackAt(table, path) || now == []
  {
    if entries != [] {
      var n := |entries| - 1;
      var e, before := entries[n], Pass(table, staging, entries[..n], outcomes[..n]).table;
      QuietMountpointsAreNotReplaced(table, staging, entries[..n], outcomes[..n], path);
      if Dead(ReplyAt(before, e.mountpoint)) && Candidate(e, staging) {
        if Below(e.mountpoint, path) {
          RemountedBelow(before, staging, e, outcomes[n], path);
        } else {
          RemountedElsewhere(before, staging, e, outcomes[n], path);
        }
      }
    }
  }

  /** Something listed at the path is a mount to repair, and what lies on top there answers dead. */
  predicate TakesTop(table: Table, staging: Mount, entries: seq<Entry>, path: string) {
    Dead(ReplyAt(table, path)) && exists i | 0 <= i < |entries| :: entries[i].mountpoint == path && Candidate(entries[i], staging)
  }

  predicate TakesTopAbove(table: Table, staging: Mount, entries: seq<Entry>, path: string) {
    exists i | 0 <= i < |entries| :: TakesAbove(table, staging, entries[i], path)
  }

  predicate TakesAbove(table: Table, staging: Mount, e: Entry, path: string) {
    Below(e.mountpoint, path) && Candidate(e, staging) && Dead(ReplyAt(table, e.mountpoint))
  }

  /**
   Even with stacked mounts and failing replacements, what a mountpoint that does not answer dead
   holds stays, unless a mount to repair is listed strictly above it where a dead mount answers.
   */
  lemma {:induction false} ServingMountpointsAreKept(table: Table, staging: Mount, entries: seq<Entry>, outcomes: seq<Outcome>, path: string)
    requires |outcomes| == |entries|
    requires !Dead(ReplyAt(table, path)) && !TakesTopAbove(table, staging, entries, path)
    ensures StackAt(Pass(table, staging, entries, outcomes).table, path) == StackAt(table, path)
  {
    if entries != [] {
      var n := |entries| - 1;
      var e, before := entries[n], Pass(table, staging, entries[..n], outcomes[..n]).table;
      assert forall i | 0 <= i < n :: entries[..n][i] == entries[i];
      ServingMountpointsAreKept(table, staging, entries[..n], outcomes[..n], path);
      assert !TakesAbove(table, staging, e, path);
      if Dead(ReplyAt(before, e.mountpoint)) && Candidate(e, staging) {
        if !Dead(ReplyAt(table, e.mountpoint)) {
          QuietMountpointsAreNotReplaced(table, staging, entries[..n], outcomes[..n], e.mountpoint);
        }
        RemountedElsewhere(before, staging, e, outcomes[n], path);
      }
    }
  }

  /** Only the topmost mount differs, and it is a live bind of the staging mount. */
  predicate TopReplaced(was: seq<Mount>, now: seq<Mount>, staging: Mount) {
    && |was| == |now| > 0 && now[..|now| - 1] == was[..|was| - 1]
    && now[|now| - 1].reply == staging.reply && now[|now| - 1].entry.device == staging.entry.device
  }

  /** What a pass in which nothing fails leaves at a path, stacked or not. */
  predicate StackDecided(table: Table, staging: Mount, entries: seq<Entry>, path: string, now: seq<Mount>) {
    var was := StackAt(table, path);
    if TakesTopAbove(table, staging, entries, path) then now == []
    else if TakesTop(table, staging, entries, path) then TopReplaced(was, now, staging) && now != was
    else now == was
  }

  lemma TakesTopFront(table: Table, staging: Mount, entries: seq<Entry>, path: string)
    requires entries != []
    ensures var n := |entries| - 1;
            && (TakesTop(table, staging, entries, path) <==>
                TakesTop(table, staging, entries[..n], path)
                || (Dead(ReplyAt(table, path)) && entries[n].mountpoint == path && Candidate(entries[n], staging)))
            && (TakesTopAbove(table, staging, entries, path) <==>
                TakesTopAbove(table, staging, entries[..n], path) || TakesAbove(table, staging, entries[n], path))
  {
    assert forall i | 0 <= i < |entries| - 1 :: entries[..|entries| - 1][i] == entries[i];
  }

  lemma TakesTopReachesDown(table: Table, staging: Mount, entries: seq<Entry>, above: string, path: string)
    requires TakesTopAbove(table, staging, entries, above) && Below(above, path)
    ensures TakesTopAbove(table, staging, entries, path)
  {
    var i :| 0 <= i < |entries| && TakesAbove(table, staging, entries[i], above);
    BelowIsTransitive(entries[i].mountpoint, above, path);
    assert TakesAbove(table, staging, entries[i], path);
  }

  /** A mountpoint whose top was replaced takes along what lies below it. */
  lemma ReplacedTopReachesDown(table: Table, staging: Mount, entries: seq<Entry>, above: string, path: string)
    requires TakesTop(table, staging, entries, above) && Below(above, path)
    ensures TakesTopAbove(table, staging, entries, path)
  {
    var i :| 0 <= i < |entries| && entries[i].mountpoint == above && Candidate(entries[i], staging);
    assert TakesAbove(table, staging, entries[i], path);
  }

  /**
   Exactly when a pass replaces the topmost mount of a stack, whoever it belongs to, and when it loses
   the whole stack to a mountpoint above.
   */
  lemma {:induction false} TopIsReplacedIff(table: Table, staging: Mount, entries: seq<Entry>, outcomes: seq<Outcome>, path: string)
    requires |outcomes| == |entries| && !Dead(staging.reply)
    requires forall i | 0 <= i < |outcomes| :: outcomes[i] == SUCCESS
    ensures StackDecided(table, staging, entries, path, StackAt(Pass(table, staging, entries, outcomes).table, path))
  {
    if entries != [] {
      var n := |entries| - 1;
      TopIsReplacedIff(table, staging, entries[..n], outcomes[..n], path);
      TopIsReplacedIff(table, staging, entries[..n], outcomes[..n], entries[n].mountpoint);
      LastDecidesStack(table, staging, entries, outcomes, path);
    }
  }

  lemma LastDecidesStack(table: Table, staging: Mount, entries: seq<Entry>, outcomes: seq<Outcome>, path: string)
    requires |outcomes| == |entries| > 0 && !Dead(staging.reply) && outcomes[|entries| - 1] == SUCCESS
    requires var n := |entries| - 1;
             var before := Pass(table, staging, entries[..n], outcomes[..n]).table;
             && StackDecided(table, staging, entries[..n], path, StackAt(before, path))
             && StackDecided(table, staging, entries[..n], entries[n].mountpoint, StackAt(before, entries[n].mountpoint))
    ensures StackDecided(table, staging, entries, path, StackAt(Pass(table, staging, entries, outcomes).table, path))
  {
    var n := |entries| - 1;
    var e, front, before := entries[n], entries[..n], Pass(table, staging, entries[..n], outcomes[..n]).table;
    TakesTopFront(table, staging, entries, path);
    TakesTopFront(table, staging, entries, e.mountpoint);
    BelowIsStrict(e.mountpoint);
    if Candidate(e, staging) && Dead(ReplyAt(before, e.mountpoint)) {
      assert !TakesTopAbove(table, staging, front, e.mountpoint) && !TakesTop(table, staging, front, e.mountpoint);
      if Below(e.mountpoint, path) {
        RemountedBelow(before, staging, e, SUCCESS, path);
      } else if path != e.mountpoint {
        RemountedElsewhere(before, staging, e, SUCCESS, path);
      } else {
        TopIsSwapped(before, staging, e);
      }
    } else if Candidate(e, staging) && Dead(ReplyAt(table, e.mountpoint)) && Below(e.mountpoint, path) {
      if TakesTopAbove(table, staging, front, e.mountpoint) {
        TakesTopReachesDown(table, staging, front, e.mountpoint, path);
      } else {
        ReplacedTopReachesDown(table, staging, front, e.mountpoint, path);
      }
    }
  }

  lemma TopIsSwapped(table: Table, staging: Mount, e: Entry)
    requires Dead(ReplyAt(table, e.mountpoint)) && !Dead(staging.reply)
    ensures var was := StackAt(table, e.mountpoint);
            var now := StackAt(Remounted(table, e.mountpoint, staging, e.root, ReadOnly(e), SUCCESS), e.mountpoint);
            TopReplaced(was, now, staging) && now != was
  {
    var was := StackAt(table, e.mountpoint);
    var now := StackAt(Remounted(table, e.mountpoint, staging, e.root, ReadOnly(e), SUCCESS), e.mountpoint);
    assert now[..|now| - 1] == was[..|was| - 1];
    assert now[|now| - 1].reply != was[|was| - 1].reply;
  }

  /**
   Where mounts are stacked, a foreign mount can be the one replaced: the pass decides by the
   entry it listed and the answer of whatever lies on top of it.
   */
  lemma StackedForeignMountIsReplaced(staging: Mount, buried: Mount, foreign: Mount, entries: seq<Entry>)
    requires Candidate(buried.entry, staging) && Dead(foreign.reply)
    requires !SameFuseFilesystem(foreign.entry.source, staging.entry.source)
    requires foreign.entry.mountpoint == buried.entry.mountpoint && entries == [buried.entry, foreign.entry]
    ensures var path := buried.entry.mountpoint;
            var after := Pass(map[path := [buried, foreign]], staging, entries, [SUCCESS, SUCCESS]).table;
            StackAt(after, path) == [buried, Bind(staging, path, buried.entry.root, if ReadOnly(buried.entry) then "ro" else staging.entry.options)]
            && foreign !in StackAt(after, path)
  {
    var path := buried.entry.mountpoint;
    var table: Table := map[path := [buried, foreign]];
    assert entries[..1] == [buried.entry] && [SUCCESS, SUCCESS][..1] == [SUCCESS];
    assert [buried.entry][..0] == [] && [SUCCESS][..0] == [];
    assert Pass(table, staging, [], []) == PassResult(table, 0);
    assert [buried, foreign][..1] == [buried];
    assert !Candidate(foreign.entry, staging);
  }

  // ----- the whole pass -----

  /** The topmost mount at a path is the one listed last. */
  method MountEntryAt(entries: seq<Entry>, path: string) returns (top: Option<Entry>)
    ensures top.None? <==> forall i | 0 <= i < |entries| :: entries[i].mountpoint != path
    ensures top.Some? ==> exists i | 0 <= i < |entries| ::
              top.value == entries[i] && entries[i].mountpoint == path && forall j | i < j < |entries| :: entries[j].mountpoint != path
  {
    top := None;
    for k := 0 to |entries|
      invariant top.None? <==> forall i | 0 <= i < k :: entries[i].mountpoint != path
      invariant top.Some? ==> exists i | 0 <= i < k ::
                  top.value == entries[i] && entries[i].mountpoint == path && forall j | i < j < k :: entries[j].mountpoint != path
    {
      if entries[k].mountpoint == path {
        top := Some(entries[k]);
      }
    }
  }

  /** What the pass finds out about one container: its mounts, unless they cannot be read, and how the replacements go. */
  datatype Visit = Visit(entries: Option<seq<Entry>>, outcomes: seq<Outcome>)

  predicate CompleteVisit(visit: Visit) {
    visit.entries.Some? ==> |visit.outcomes| == |visit.entries.value|
  }

  function VisitResult(table: Table, staging: Mount, visit: Visit): PassResult
    requires CompleteVisit(visit)
  {
    if visit.entries.None? then PassResult(table, 0) else Pass(table, staging, visit.entries.value, visit.outcomes)
  }

  function Repaired(tables: seq<Table>, staging: Mount, visits: seq<Visit>): nat
    requires |tables| == |visits| && forall i | 0 <= i < |visits| :: CompleteVisit(visits[i])
  {
    if tables == [] then 0
    else
      var n := |tables| - 1;
      Repaired(tables[..n], staging, visits[..n]) + VisitResult(tables[n], staging, visits[n]).repaired
  }

  /** Every container is repaired by itself; without a live FUSE staging mount none is touched. */
  method RepairStaleContainerMounts(staging: Option<Mount>, containers: seq<Container>, visits: seq<Visit>) returns (repaired: nat)
    requires |containers| == |visits| && forall i | 0 <= i < |visits| :: CompleteVisit(visits[i])
    requires forall i, j | 0 <= i < j < |containers| :: containers[i] != containers[j]
    modifies set c | c in containers
    ensures staging.None? || !IsFuseFS(staging.value.entry.fstype) ==>
              repaired == 0 && forall i | 0 <= i < |containers| :: containers[i].table == old(containers[i].table)
    ensures staging.Some? && IsFuseFS(staging.value.entry.fstype) ==>
              && (forall i | 0 <= i < |containers| ::
                    containers[i].table == VisitResult(old(containers[i].table), staging.value, visits[i]).table)
              && repaired == Repaired(seq(|containers|, i requires 0 <= i < |containers| => old(containers[i].table)), staging.value, visits)
  {
    repaired := 0;
    if staging.None? || !IsFuseFS(staging.value.entry.fstype) {
      return;
    }
    ghost var was := seq(|containers|, i requires 0 <= i < |containers| => old(containers[i].table));
    for k := 0 to |containers|
      invariant forall i | k <= i < |containers| :: containers[i].table == was[i]
      invariant forall i | 0 <= i < k :: containers[i].table == VisitResult(was[i], staging.value, visits[i]).table
      invariant repaired == Repaired(was[..k], staging.value, visits[..k])
    {
      assert was[..k + 1][..k] == was[..k] && visits[..k + 1][..k] == visits[..k];
      if visits[k].entries.Some? {
        var count := containers[k].Repair(staging.value, visits[k].entries.value, visits[k].outcomes);
        repaired := repaired + count;
      }
    }
    assert was[..|was|] == was && visits[..|visits|] == visits;
  }
}
