/**
 * The git status and sync engine.  The git subprocess is an oracle: given
 * the commands already issued in this operation and the next command, it
 * says how the subprocess ended.  Every operation returns, next to its
 * value, the trace of the commands it issued, so that ordering and "no
 * command after X" can be stated about it.
 */
module Git {
  import opened Wrappers
  import opened Text
  import opened KanbanTypes
  import opened Seqs

  /** The git subcommands the engine issues. */
  datatype Command =
    | RevParseGitDir
    | RevParseHead
    | RevListCount
    | DiffCached
    | DiffWorkTree
    | LsFilesOthers
    | Fetch
    | Add(path: string)
    | Commit(date: string)
    | PullRebase
    | RebaseAbort
    | Push

  /** The literal argument string passed after `git`. */
  function Args(c: Command): string {
    match c
    case RevParseGitDir => "rev-parse --git-dir"
    case RevParseHead => "rev-parse --abbrev-ref HEAD"
    case RevListCount => "rev-list --left-right --count @{upstream}...HEAD"
    case DiffCached => "diff --cached --name-status"
    case DiffWorkTree => "diff --name-status"
    case LsFilesOthers => "ls-files --others --exclude-standard"
    case Fetch => "fetch"
    case Add(p) => "add " + p
    case Commit(d) => "commit -m \"Sync tickets " + d + "\""
    case PullRebase => "pull --rebase"
    case RebaseAbort => "rebase --abort"
    case Push => "push"
  }

  /** How the subprocess ended: exit status 0 with its standard output, or a failure. */
  datatype Exec = Exited(stdout: string) | Failed(stderr: string, message: string)

  /** The repository and remote as seen through the subprocess. */
  type Oracle = (seq<Command>, Command) -> Exec

  datatype Reply = Ok(out: string) | Err(diagnostic: string)

  /**
   * `git(command)`: the trimmed standard output, or an error whose text is
   * the error stream, else the exception message, else a fixed text.
   */
  function Run(oracle: Oracle, history: seq<Command>, c: Command): (r: Reply)
    ensures r.Ok? <==> oracle(history, c).Exited?
    ensures r.Ok? ==> r.out == Trim(oracle(history, c).stdout)
    ensures r.Err? ==> r.diagnostic != []
  {
    match oracle(history, c)
    case Exited(out) => Ok(Trim(out))
    case Failed(stderr, message) =>
      Err(if stderr != [] then stderr else if message != [] then message else "Git command failed")
  }

  /*
   * Every operation below takes the oracle and the history `h` of commands
   * issued before it, and returns its value together with the commands it
   * issued itself, in order.
   */

  /** `isGitRepo`: whether `rev-parse --git-dir` succeeds. */
  function IsGitRepo(oracle: Oracle, h: seq<Command>): (r: (bool, seq<Command>))
    ensures r.1 == [RevParseGitDir]
    ensures r.0 <==> oracle(h, RevParseGitDir).Exited?
  {
    (Run(oracle, h, RevParseGitDir).Ok?, [RevParseGitDir])
  }

  /** `getCurrentBranch`: the branch name, or "unknown" when the query fails. */
  function CurrentBranch(oracle: Oracle, h: seq<Command>): (r: (string, seq<Command>))
    ensures r.1 == [RevParseHead]
    ensures oracle(h, RevParseHead).Failed? ==> r.0 == "unknown"
    ensures oracle(h, RevParseHead).Exited? ==> r.0 == Trim(oracle(h, RevParseHead).stdout)
  {
    var reply := Run(oracle, h, RevParseHead);
    (if reply.Ok? then reply.out else "unknown", [RevParseHead])
  }

  predicate AllDigits(s: string) {
    forall i :: 0 <= i < |s| ==> IsDigit(s[i])
  }

  function DecimalValue(s: string): (n: nat)
    requires AllDigits(s)
  {
    if s == [] then 0
    else DecimalValue(s[..|s| - 1]) * 10 + (s[|s| - 1] as int - '0' as int)
  }

  /**
   * `Number(field) || 0` for a count field: a plain decimal numeral gives its
   * value, anything else (including a missing field) gives 0.
   */
  function CountField(fields: seq<string>, k: nat): nat
  {
    if k < |fields| && fields[k] != [] && AllDigits(fields[k]) then DecimalValue(fields[k]) else 0
  }

  datatype Divergence = Divergence(ahead: nat, behind: nat)

  /**
   * The parse in `getAheadBehind`: `rev-list --left-right --count` prints
   * "behind<TAB>ahead"; a failed query (no upstream) gives zero for both.
   */
  function DivergenceOf(reply: Reply): (d: Divergence)
    ensures reply.Err? ==> d == Divergence(0, 0)
    ensures reply.Ok? ==> d.behind == CountField(Split(reply.out, "\t"), 0)
    ensures reply.Ok? ==> d.ahead == CountField(Split(reply.out, "\t"), 1)
  {
    match reply
    case Err(_) => Divergence(0, 0)
    case Ok(out) =>
      var fields := Split(out, "\t");
      Divergence(CountField(fields, 1), CountField(fields, 0))
  }

  /** `getAheadBehind`. */
  function AheadBehind(oracle: Oracle, h: seq<Command>): (r: (Divergence, seq<Command>))
    ensures r.1 == [RevListCount]
    ensures oracle(h, RevListCount).Failed? ==> r.0 == Divergence(0, 0)
  {
    (DivergenceOf(Run(oracle, h, RevListCount)), [RevListCount])
  }

  /** `isTrackedPath`: a plain string-prefix test against each allow-listed root. */
  predicate IsTrackedPath(path: string) {
    exists i :: 0 <= i < |TrackedPaths| && StartsWith(path, TrackedPaths[i])
  }

  /** The allow-list is a prefix test, not a directory test: `ticketsX/a` counts, `README.md` does not. */
  lemma TrackedPathIsPrefixTest(path: string)
    ensures IsTrackedPath(path) <==> StartsWith(path, ".kanban") || StartsWith(path, "tickets")
    ensures IsTrackedPath("ticketsX/a") && IsTrackedPath("tickets/main/T-1-a.md")
    ensures !IsTrackedPath("README.md") && !IsTrackedPath("src/kanban")
  {
    assert StartsWith("ticketsX/a", TrackedPaths[1]);
    assert StartsWith("tickets/main/T-1-a.md", TrackedPaths[1]);
    assert !StartsWith("README.md", TrackedPaths[0]) by { assert "README.md"[0] != '.'; }
    assert !StartsWith("README.md", TrackedPaths[1]) by { assert "README.md"[0] != 't'; }
    assert !StartsWith("src/kanban", TrackedPaths[0]) by { assert "src/kanban"[0] != '.'; }
    assert !StartsWith("src/kanban", TrackedPaths[1]) by { assert "src/kanban"[0] != 't'; }
  }

  /** The non-empty lines of a query's output. */
  function Lines(out: string): seq<string> {
    NonEmpty(Split(out, "\n"))
  }

  /** Entries collected from a list of output lines; `complete` is false when a line made the scan throw. */
  datatype Scan = Scan(entries: seq<GitFileStatus>, complete: bool)

  /** The kind a `--name-status` line gets: staged, else deleted for `D`, else modified. */
  function NameStatusKind(staged: bool, status: string): (k: FileKind)
    ensures staged ==> k == Staged
    ensures !staged ==> (k == Deleted <==> status == "D")
    ensures !staged ==> k == Deleted || k == Modified
  {
    if staged then Staged else if status == "D" then Deleted else Modified
  }

  /** Position of a file kind in the listing order: staged, then unstaged, then untracked. */
  function KindRank(k: FileKind): nat {
    match k
    case Staged => 0
    case Modified => 1
    case Deleted => 1
    case Added => 1
    case Untracked => 2
  }

  /** An entry a listing loop may push: under an allow-listed root, never `added`, with the rank of its listing. */
  predicate ListedEntry(e: GitFileStatus, rank: nat) {
    IsTrackedPath(e.path) && e.kind != Added && KindRank(e.kind) == rank
  }

  predicate AllListed(entries: seq<GitFileStatus>, rank: nat) {
    forall i :: 0 <= i < |entries| ==> ListedEntry(entries[i], rank)
  }

  /** Whether `line.split('\t')[1]` is defined. */
  predicate HasTab(line: string) {
    |Split(line, "\t")| >= 2
  }

  /** The entry a `--name-status` line with a tab yields: the second field is the path, the first the status letter. */
  function NameStatusEntry(line: string, staged: bool): GitFileStatus
    requires HasTab(line)
  {
    var fields := Split(line, "\t");
    GitFileStatus(fields[1], NameStatusKind(staged, fields[0]))
  }

  /** Line `i` is reached by the loop (it and every line before it have a tab) and names a tracked path. */
  predicate TrackedLine(lines: seq<string>, i: int) {
    && 0 <= i < |lines|
    && (forall k :: 0 <= k <= i ==> HasTab(lines[k]))
    && IsTrackedPath(Split(lines[i], "\t")[1])
  }

  /**
   * The loop over `--name-status` lines: each line is split at tabs and the
   * second field is the path; a line without a tab leaves the path
   * `undefined`, and testing it throws, which ends the whole query.
   */
  function ScanNameStatus(lines: seq<string>, staged: bool): (s: Scan)
    ensures AllListed(s.entries, if staged then 0 else 1)
    ensures s.complete <==> forall i :: 0 <= i < |lines| ==> HasTab(lines[i])
    ensures forall i :: TrackedLine(lines, i) ==> NameStatusEntry(lines[i], staged) in s.entries
    ensures |s.entries| <= |lines|
    decreases |lines|
  {
    if lines == [] then Scan([], true)
    else
      var fields := Split(lines[0], "\t");
      if |fields| < 2 then Scan([], false)
      else
        var rest := ScanNameStatus(lines[1..], staged);
        assert forall i :: 1 <= i < |lines| ==> lines[i] == lines[1..][i - 1];
        if IsTrackedPath(fields[1]) then
          Scan([GitFileStatus(fields[1], NameStatusKind(staged, fields[0]))] + rest.entries, rest.complete)
        else rest
  }

  /** With a staged listing every entry is `staged`; an unstaged entry is `deleted` exactly for status `D`. */
  lemma {:induction false} ScanNameStatusKinds(lines: seq<string>, staged: bool)
    ensures forall e :: e in ScanNameStatus(lines, staged).entries ==> (staged ==> e.kind == Staged)
    ensures forall e :: e in ScanNameStatus(lines, staged).entries ==> (!staged ==> e.kind == Deleted || e.kind == Modified)
    decreases |lines|
  {
    if lines != [] && HasTab(lines[0]) {
      ScanNameStatusKinds(lines[1..], staged);
    }
  }

  /** The loop over `ls-files --others` lines: each line is a path. */
  function ScanUntracked(lines: seq<string>): (entries: seq<GitFileStatus>)
    ensures AllListed(entries, 2)
    ensures forall e :: e in entries ==> e.kind == Untracked
    ensures forall i :: 0 <= i < |lines| && IsTrackedPath(lines[i]) ==> GitFileStatus(lines[i], Untracked) in entries
    ensures |entries| <= |lines|
  {
    if lines == [] then []
    else if IsTrackedPath(lines[0]) then [GitFileStatus(lines[0], Untracked)] + ScanUntracked(lines[1..])
    else ScanUntracked(lines[1..])
  }

  /**
   * The `--name-status` loop over a query's reply; a failed query lists
   * nothing and, like a throwing line, ends the collection.
   */
  function ReplyNameStatus(reply: Reply, staged: bool): (s: Scan)
    ensures AllListed(s.entries, if staged then 0 else 1)
    ensures reply.Err? ==> s == Scan([], false)
  {
    if reply.Err? then Scan([], false) else ScanNameStatus(Lines(reply.out), staged)
  }

  /** The `ls-files --others` loop over a query's reply; a failed query lists nothing. */
  function ReplyUntracked(reply: Reply): (entries: seq<GitFileStatus>)
    ensures AllListed(entries, 2)
    ensures reply.Err? ==> entries == []
  {
    if reply.Err? then [] else ScanUntracked(Lines(reply.out))
  }

  /** One `--name-status` query and the loop over its reply. */
  function NameStatusListing(oracle: Oracle, history: seq<Command>, cmd: Command, staged: bool): (s: Scan)
    ensures AllListed(s.entries, if staged then 0 else 1)
    ensures oracle(history, cmd).Failed? ==> s == Scan([], false)
  {
    ReplyNameStatus(Run(oracle, history, cmd), staged)
  }

  /** The `ls-files --others` query and the loop over its reply. */
  function UntrackedListing(oracle: Oracle, history: seq<Command>): (entries: seq<GitFileStatus>)
    ensures AllListed(entries, 2)
    ensures oracle(history, LsFilesOthers).Failed? ==> entries == []
  {
    ReplyUntracked(Run(oracle, history, LsFilesOthers))
  }

  /**
   * What `getChangedFiles` returns: staged entries, then unstaged entries,
   * then untracked entries; a failing query or a throwing line ends the
   * collection, keeping what was already collected.
   */
  function ChangedFiles(oracle: Oracle, h: seq<Command>): (r: (seq<GitFileStatus>, seq<Command>))
  {
    var s1 := NameStatusListing(oracle, h, DiffCached, true);
    if !s1.complete then (s1.entries, [DiffCached])
    else
      var s2 := NameStatusListing(oracle, h + [DiffCached], DiffWorkTree, false);
      if !s2.complete then (s1.entries + s2.entries, [DiffCached, DiffWorkTree])
      else
        var u := UntrackedListing(oracle, h + [DiffCached, DiffWorkTree]);
        (s1.entries + s2.entries + u, [DiffCached, DiffWorkTree, LsFilesOthers])
  }

  /** Queries only read the repository; they are the commands status reporting issues. */
  predicate IsQuery(c: Command) {
    c.RevParseGitDir? || c.RevParseHead? || c.RevListCount? || c.DiffCached? || c.DiffWorkTree? || c.LsFilesOthers?
  }

  predicate QueriesOnly(cs: seq<Command>) {
    forall i :: 0 <= i < |cs| ==> IsQuery(cs[i])
  }

  predicate RankOrdered(files: seq<GitFileStatus>) {
    forall i, j :: 0 <= i < j < |files| ==> KindRank(files[i].kind) <= KindRank(files[j].kind)
  }

  /** Listings of rank 0, 1 and 2 concatenated are in rank order. */
  lemma {:induction false} ListingsConcat(a: seq<GitFileStatus>, b: seq<GitFileStatus>, c: seq<GitFileStatus>)
    requires AllListed(a, 0) && AllListed(b, 1) && AllListed(c, 2)
    ensures RankOrdered(a + b + c)
    ensures forall i :: 0 <= i < |a + b + c| ==> IsTrackedPath((a + b + c)[i].path) && (a + b + c)[i].kind != Added
  {
    var all := a + b + c;
    forall i | 0 <= i < |all| ensures ListedEntry(all[i], if i < |a| then 0 else if i < |a| + |b| then 1 else 2) {
      if i < |a| { assert all[i] == a[i]; }
      else if i < |a| + |b| { assert all[i] == b[i - |a|]; }
      else { assert all[i] == c[i - |a| - |b|]; }
    }
  }

  /** The commands `getChangedFiles` issues: the staged listing, then each further listing while it goes on. */
  lemma ChangedFilesTrace(oracle: Oracle, h: seq<Command>)
    ensures var t := ChangedFiles(oracle, h).1;
      && (t == [DiffCached] || t == [DiffCached, DiffWorkTree] || t == [DiffCached, DiffWorkTree, LsFilesOthers])
      && QueriesOnly(t)
  {
  }

  /** The files `getChangedFiles` returns come from the listing loops, in listing order. */
  lemma ChangedFilesListings(oracle: Oracle, h: seq<Command>)
    ensures var files := ChangedFiles(oracle, h).0;
      && (forall i :: 0 <= i < |files| ==> IsTrackedPath(files[i].path) && files[i].kind != Added)
      && RankOrdered(files)
  {
    var s1 := NameStatusListing(oracle, h, DiffCached, true);
    var s2 := NameStatusListing(oracle, h + [DiffCached], DiffWorkTree, false);
    var u := UntrackedListing(oracle, h + [DiffCached, DiffWorkTree]);
    if !s1.complete {
      assert s1.entries == s1.entries + [] + [];
      ListingsConcat(s1.entries, [], []);
    } else if !s2.complete {
      assert s1.entries + s2.entries == s1.entries + s2.entries + [];
      ListingsConcat(s1.entries, s2.entries, []);
    } else {
      ListingsConcat(s1.entries, s2.entries, u);
    }
  }

  /**
   * Nothing a listing reached is lost: every tracked line of the staged
   * listing, of the unstaged listing once the staged one completed, and of
   * the untracked listing once both completed, is among the returned files.
   */
  lemma ChangedFilesComplete(oracle: Oracle, h: seq<Command>)
    ensures var files := ChangedFiles(oracle, h).0;
      var r1 := Run(oracle, h, DiffCached);
      var r2 := Run(oracle, h + [DiffCached], DiffWorkTree);
      var r3 := Run(oracle, h + [DiffCached, DiffWorkTree], LsFilesOthers);
      var s1 := NameStatusListing(oracle, h, DiffCached, true);
      var s2 := NameStatusListing(oracle, h + [DiffCached], DiffWorkTree, false);
      && (r1.Ok? ==> forall i :: TrackedLine(Lines(r1.out), i) ==> NameStatusEntry(Lines(r1.out)[i], true) in files)
      && (s1.complete && r2.Ok? ==>
            forall i :: TrackedLine(Lines(r2.out), i) ==> NameStatusEntry(Lines(r2.out)[i], false) in files)
      && (s1.complete && s2.complete && r3.Ok? ==>
            forall i :: 0 <= i < |Lines(r3.out)| && IsTrackedPath(Lines(r3.out)[i]) ==> GitFileStatus(Lines(r3.out)[i], Untracked) in files)
  {
  }

  /** If a query fails, the entries collected by the earlier queries are returned unchanged. */
  lemma FailedQueryKeepsEarlierEntries(oracle: Oracle, h: seq<Command>)
    ensures oracle(h, DiffCached).Failed? ==> ChangedFiles(oracle, h) == ([], [DiffCached])
    ensures var s1 := NameStatusListing(oracle, h, DiffCached, true);
      s1.complete && oracle(h + [DiffCached], DiffWorkTree).Failed? ==>
      ChangedFiles(oracle, h) == (s1.entries, [DiffCached, DiffWorkTree])
  {
    var s1 := NameStatusListing(oracle, h, DiffCached, true);
    assert s1.entries + [] == s1.entries;
  }

  /** A line without a tab ends the staged listing and everything after it: nothing more is queried. */
  lemma LineWithoutTabEndsCollection(oracle: Oracle, h: seq<Command>)
    requires oracle(h, DiffCached).Exited?
    requires exists i :: 0 <= i < |Lines(Run(oracle, h, DiffCached).out)| && !HasTab(Lines(Run(oracle, h, DiffCached).out)[i])
    ensures ChangedFiles(oracle, h).1 == [DiffCached]
  {
  }

  /** One step of the `--name-status` loop at line `i`. */
  lemma ScanNameStatusStep(lines: seq<string>, i: nat, staged: bool)
    requires i < |lines|
    ensures var here := ScanNameStatus(lines[i..], staged);
      var rest := ScanNameStatus(lines[i + 1..], staged);
      var fields := Split(lines[i], "\t");
      here == (if |fields| < 2 then Scan([], false)
               else if IsTrackedPath(fields[1]) then Scan([GitFileStatus(fields[1], NameStatusKind(staged, fields[0]))] + rest.entries, rest.complete)
               else rest)
  {
    assert lines[i..][1..] == lines[i + 1..];
  }

  /** One step of the `ls-files --others` loop at line `i`. */
  lemma ScanUntrackedStep(lines: seq<string>, i: nat)
    requires i < |lines|
    ensures ScanUntracked(lines[i..]) ==
      (if IsTrackedPath(lines[i]) then [GitFileStatus(lines[i], Untracked)] else []) + ScanUntracked(lines[i + 1..])
  {
    assert lines[i..][1..] == lines[i + 1..];
  }

  /**
   * The loop of `getChangedFiles` over the lines of one `--name-status`
   * reply, pushing onto `files`; `complete` is false when the query failed
   * or a line without a tab made the loop throw.
   */
  method PushNameStatus(files: seq<GitFileStatus>, reply: Reply, staged: bool)
    returns (files': seq<GitFileStatus>, complete: bool)
    ensures files' == files + ReplyNameStatus(reply, staged).entries
    ensures complete == ReplyNameStatus(reply, staged).complete
  {
    files' := files;
    if reply.Err? {
      assert files' + [] == files';
      return files', false;
    }
    var lines := Lines(reply.out);
    var i := 0;
    while i < |lines|
      invariant 0 <= i <= |lines|
      invariant files + ScanNameStatus(lines, staged).entries == files' + ScanNameStatus(lines[i..], staged).entries
      invariant ScanNameStatus(lines, staged).complete == ScanNameStatus(lines[i..], staged).complete
    {
      ScanNameStatusStep(lines, i, staged);
      var fields := Split(lines[i], "\t");
      if |fields| < 2 {
        assert files' + [] == files';
        return files', false;
      }
      if IsTrackedPath(fields[1]) {
        var e := GitFileStatus(fields[1], if staged then Staged else if fields[0] == "D" then Deleted else Modified);
        AppendAssoc(files', [e], ScanNameStatus(lines[i + 1..], staged).entries);
        files' := files' + [e];
      }
      i := i + 1;
    }
    assert lines[i..] == [] && files' + [] == files';
    complete := true;
  }

  /** The loop of `getChangedFiles` over the lines of the untracked reply, pushing onto `files`. */
  method PushUntracked(files: seq<GitFileStatus>, reply: Reply) returns (files': seq<GitFileStatus>)
    ensures files' == files + ReplyUntracked(reply)
  {
    files' := files;
    if reply.Err? {
      assert files' + [] == files';
      return;
    }
    var lines := Lines(reply.out);
    var i := 0;
    while i < |lines|
      invariant 0 <= i <= |lines|
      invariant files + ScanUntracked(lines) == files' + ScanUntracked(lines[i..])
    {
      ScanUntrackedStep(lines, i);
      if IsTrackedPath(lines[i]) {
        var e := GitFileStatus(lines[i], Untracked);
        AppendAssoc(files', [e], ScanUntracked(lines[i + 1..]));
        files' := files' + [e];
      }
      i := i + 1;
    }
    assert lines[i..] == [] && files' + [] == files';
  }

  /**
   * `getChangedFiles` as the source writes it: three queries whose lines are
   * pushed onto one list, each query's failure (or a throwing line) ending
   * the collection.
   */
  method GetChangedFiles(oracle: Oracle, h: seq<Command>) returns (files: seq<GitFileStatus>, issued: seq<Command>)
    ensures (files, issued) == ChangedFiles(oracle, h)
  {
    var complete: bool;
    var staged := Run(oracle, h, DiffCached);
    files, complete := PushNameStatus([], staged, true);
    assert files == NameStatusListing(oracle, h, DiffCached, true).entries;
    issued := [DiffCached];
    if !complete {
      return;
    }
    var unstaged := Run(oracle, h + issued, DiffWorkTree);
    files, complete := PushNameStatus(files, unstaged, false);
    issued := [DiffCached, DiffWorkTree];
    if !complete {
      return;
    }
    var untracked := Run(oracle, h + issued, LsFilesOthers);
    files := PushUntracked(files, untracked);
    issued := [DiffCached, DiffWorkTree, LsFilesOthers];
  }

  /** Number of entries of one kind (`files.filter(f => f.status === kind).length`). */
  function CountKind(files: seq<GitFileStatus>, k: FileKind): (n: nat)
    ensures n <= |files|
  {
    if files == [] then 0
    else (if files[0].kind == k then 1 else 0) + CountKind(files[1..], k)
  }

  /** `getGitStatus`: branch, divergence and changed files, with derived counts. */
  function Status(oracle: Oracle, h: seq<Command>): (r: (GitStatus, seq<Command>))
  {
    var branch := CurrentBranch(oracle, h).0;
    var d := AheadBehind(oracle, h + [RevParseHead]).0;
    var c := ChangedFiles(oracle, h + [RevParseHead, RevListCount]);
    var files := c.0;
    (GitStatus(branch, d.ahead, d.behind,
      CountKind(files, Modified), CountKind(files, Untracked), CountKind(files, Staged),
      |files| > 0, files), [RevParseHead, RevListCount] + c.1)
  }

  lemma {:induction false} CountKindsPartition(files: seq<GitFileStatus>)
    requires forall i :: 0 <= i < |files| ==> files[i].kind != Added
    ensures CountKind(files, Modified) + CountKind(files, Untracked) + CountKind(files, Staged)
      + CountKind(files, Deleted) == |files|
  {
    if files != [] {
      CountKindsPartition(files[1..]);
    }
  }

  /**
   * `hasChanges` holds exactly when some tracked entry was found; the three
   * counts count their own kind, deleted entries are counted in none of
   * them, and every entry is under an allow-listed root.
   */
  lemma StatusCounts(oracle: Oracle, h: seq<Command>)
    ensures var st := Status(oracle, h).0;
      && (st.hasChanges <==> |st.files| > 0)
      && st.modified + st.untracked + st.staged + CountKind(st.files, Deleted) == |st.files|
      && st.modified + st.untracked + st.staged <= |st.files|
      && (forall i :: 0 <= i < |st.files| ==> IsTrackedPath(st.files[i].path))
  {
    ChangedFilesListings(oracle, h + [RevParseHead, RevListCount]);
    CountKindsPartition(ChangedFiles(oracle, h + [RevParseHead, RevListCount]).0);
  }

  /** The commands `getGitStatus` issues: branch, divergence, then those of `getChangedFiles`. */
  lemma StatusIssued(oracle: Oracle, h: seq<Command>)
    ensures Status(oracle, h).1 == [RevParseHead, RevListCount] + ChangedFiles(oracle, h + [RevParseHead, RevListCount]).1
  {
  }

  lemma QueriesAfterBranchAndDivergence(c: seq<Command>)
    requires c == [DiffCached] || c == [DiffCached, DiffWorkTree] || c == [DiffCached, DiffWorkTree, LsFilesOthers]
    ensures var t := [RevParseHead, RevListCount] + c;
      3 <= |t| <= 5 && QueriesOnly(t) && t[0] == RevParseHead && t[1] == RevListCount && t[2] == DiffCached
  {
  }

  /** Status reporting only issues queries: branch, divergence, then the file listings. */
  lemma StatusTrace(oracle: Oracle, h: seq<Command>)
    ensures var t := Status(oracle, h).1;
      3 <= |t| <= 5 && QueriesOnly(t)
      && t[0] == RevParseHead && t[1] == RevListCount && t[2] == DiffCached
  {
    var c := ChangedFiles(oracle, h + [RevParseHead, RevListCount]).1;
    ChangedFilesTrace(oracle, h + [RevParseHead, RevListCount]);
    StatusIssued(oracle, h);
    QueriesAfterBranchAndDivergence(c);
  }

  /** `getGitStatus` composed of the three queries in the order the source awaits them. */
  method GetGitStatus(oracle: Oracle, h: seq<Command>) returns (status: GitStatus, issued: seq<Command>)
    ensures (status, issued) == Status(oracle, h)
  {
    var branch := CurrentBranch(oracle, h).0;
    var d := AheadBehind(oracle, h + [RevParseHead]).0;
    var files, filesIssued := GetChangedFiles(oracle, h + [RevParseHead, RevListCount]);
    var modified := CountKind(files, Modified);
    var untracked := CountKind(files, Untracked);
    var staged := CountKind(files, Staged);
    status := GitStatus(branch, d.ahead, d.behind, modified, untracked, staged, |files| > 0, files);
    issued := [RevParseHead, RevListCount] + filesIssued;
  }

  /** `isClean`: no tracked file has changes. */
  function IsClean(oracle: Oracle, h: seq<Command>): (r: (bool, seq<Command>))
    ensures r.0 <==> ChangedFiles(oracle, h + [RevParseHead, RevListCount]).0 == []
    ensures r.1 == Status(oracle, h).1
  {
    var st := Status(oracle, h);
    (!st.0.hasChanges, st.1)
  }

  /** Outcome texts of `sync`. */
  const SyncFailedMessage := "Sync failed"
  const ConflictMessage := "Sync conflict detected. Please resolve manually."
  const RejectedMessage := "Push rejected. Someone else pushed changes."
  const UpToDateMessage := "Already up to date"

  /** The result record `sync` starts from. */
  const InitialResult := SyncResult(false, "", false, false, false, None)

  /** The outer catch of `sync`: whatever was recorded so far is kept. */
  function SyncFailed(r: SyncResult, diagnostic: string): SyncResult {
    r.(message := SyncFailedMessage, error := Some(diagnostic))
  }

  /** The actions listed in the success message, in the order pulled, committed, pushed. */
  function Actions(r: SyncResult): seq<string> {
    (if r.pulled then ["pulled"] else []) + (if r.committed then ["committed"] else []) + (if r.pushed then ["pushed"] else [])
  }

  function SuccessMessage(r: SyncResult): string {
    if |Actions(r)| > 0 then "Synced: " + Join(Actions(r), ", ") else UpToDateMessage
  }

  /** The end of a run that threw nothing. */
  function Finish(r: SyncResult): SyncResult {
    r.(success := true, message := SuccessMessage(r))
  }

  /** The day part of the ISO timestamp used in the commit message (`toISOString().split('T')[0]`). */
  function CommitDate(now: string): string {
    Split(now, "T")[0]
  }

  /** A pull failure is a conflict when its text mentions one in either case spelling the source tests. */
  predicate IsConflict(diagnostic: string) {
    Contains(diagnostic, "conflict") || Contains(diagnostic, "CONFLICT")
  }

  /** One `git add` per allow-listed root. */
  function AddCommands(roots: seq<string>): (cs: seq<Command>)
    ensures |cs| == |roots|
    ensures forall i :: 0 <= i < |roots| ==> cs[i] == Add(roots[i])
  {
    if roots == [] then [] else AddCommands(roots[..|roots| - 1]) + [Add(roots[|roots| - 1])]
  }

  /*
   * The phases of `sync` below take the commands `acc` issued so far in the
   * run (the oracle sees `h + acc`) and return the extended list.
   */

  /** Staging and committing local changes: add failures are ignored; `committed` records whether the commit succeeded. */
  function CommitPhase(oracle: Oracle, h: seq<Command>, acc: seq<Command>, now: string): (r: (bool, seq<Command>))
    ensures r.1 == acc + AddCommands(TrackedPaths) + [Commit(CommitDate(now))]
    ensures r.0 <==> oracle(h + (acc + AddCommands(TrackedPaths)), Commit(CommitDate(now))).Exited?
  {
    var adds := acc + AddCommands(TrackedPaths);
    var commit := Commit(CommitDate(now));
    (Run(oracle, h + adds, commit).Ok?, adds + [commit])
  }

  /** The push step after the second divergence query. */
  function PushPhase(oracle: Oracle, h: seq<Command>, r: SyncResult, acc: seq<Command>): (out: (SyncResult, seq<Command>))
  {
    var ahead := AheadBehind(oracle, h + acc).0.ahead;
    var acc1 := acc + [RevListCount];
    if ahead == 0 && !r.committed then (Finish(r), acc1)
    else
      var push := Run(oracle, h + acc1, Push);
      var acc2 := acc1 + [Push];
      if push.Ok? then (Finish(r.(pushed := true)), acc2)
      else if Contains(push.diagnostic, "rejected") then (r.(message := RejectedMessage, error := Some(push.diagnostic)), acc2)
      else (SyncFailed(r, push.diagnostic), acc2)
  }

  /** The pull step after the first divergence query, then the push step. */
  function PullPhase(oracle: Oracle, h: seq<Command>, r: SyncResult, acc: seq<Command>): (out: (SyncResult, seq<Command>))
  {
    var behind := AheadBehind(oracle, h + acc).0.behind;
    var acc1 := acc + [RevListCount];
    if behind == 0 then PushPhase(oracle, h, r, acc1)
    else
      var pull := Run(oracle, h + acc1, PullRebase);
      var acc2 := acc1 + [PullRebase];
      if pull.Ok? then PushPhase(oracle, h, r.(pulled := true), acc2)
      else if IsConflict(pull.diagnostic) then
        var abort := Run(oracle, h + acc2, RebaseAbort);
        var acc3 := acc2 + [RebaseAbort];
        if abort.Err? then (SyncFailed(r, abort.diagnostic), acc3)
        else (r.(message := ConflictMessage, error := Some(pull.diagnostic)), acc3)
      else (SyncFailed(r, pull.diagnostic), acc2)
  }

  /**
   * `sync`: fetch, commit local changes if there are any, pull when behind,
   * push when ahead or just committed.  `now` is the ISO timestamp of the
   * clock reading.
   */
  function SyncSpec(oracle: Oracle, h: seq<Command>, now: string): (out: (SyncResult, seq<Command>))
  {
    var fetch := Run(oracle, h, Fetch);
    if fetch.Err? then (SyncFailed(InitialResult, fetch.diagnostic), [Fetch])
    else
      var local := LocalCommit(oracle, h, now);
      PullPhase(oracle, h, InitialResult.(committed := local.0), local.1)
  }

  /**
   * After a successful fetch: the status query, then the commit step when
   * there are changes.  Returns whether a commit was made and the commands
   * issued so far, starting with the fetch.
   */
  function LocalCommit(oracle: Oracle, h: seq<Command>, now: string): (r: (bool, seq<Command>))
    ensures |r.1| >= 1 && r.1[0] == Fetch
    ensures r.0 ==> Status(oracle, h + [Fetch]).0.hasChanges && r.1[|r.1| - 1] == Commit(CommitDate(now))
  {
    var status := Status(oracle, h + [Fetch]);
    var acc := [Fetch] + status.1;
    if status.0.hasChanges then CommitPhase(oracle, h, acc, now) else (false, acc)
  }

  /**
   * The commit step runs exactly when the status shows changes: then one
   * `git add` per root and the dated commit follow the status queries, and
   * the commit is reported exactly when it exits normally; without changes
   * nothing follows the status queries.
   */
  lemma LocalCommitSteps(oracle: Oracle, h: seq<Command>, now: string)
    ensures var st := Status(oracle, h + [Fetch]);
      var r := LocalCommit(oracle, h, now);
      var adds := [Fetch] + st.1 + AddCommands(TrackedPaths);
      && (st.0.hasChanges ==> r.1 == adds + [Commit(CommitDate(now))])
      && (st.0.hasChanges ==> (r.0 <==> oracle(h + adds, Commit(CommitDate(now))).Exited?))
      && (!st.0.hasChanges ==> r == (false, [Fetch] + st.1))
  {
  }

  /** No success text equals the conflict text, and the three failure texts differ. */
  lemma MessagesDistinct(r: SyncResult)
    ensures SuccessMessage(r) != ConflictMessage
    ensures SyncFailedMessage != ConflictMessage && RejectedMessage != ConflictMessage
  {
    var m := SuccessMessage(r);
    if |Actions(r)| > 0 {
      assert m[4] == 'e';
    } else {
      assert m[0] == 'A';
    }
    assert ConflictMessage[4] == ' ';
    assert SyncFailedMessage[5] == 'f' && ConflictMessage[5] == 'c';
    assert RejectedMessage[0] == 'P';
  }

  /** What a run can still report once it reaches a phase: nothing failed and nothing was pushed yet. */
  predicate Pending(r: SyncResult) {
    !r.success && r.error.None? && !r.pushed
  }

  /** The outcome predicates every finished run satisfies. */
  predicate WellReported(r: SyncResult) {
    && (r.success <==> r.error.None?)
    && (r.success ==> r.message == SuccessMessage(r))
    && (!r.success ==> r.message == SyncFailedMessage || r.message == ConflictMessage || r.message == RejectedMessage)
    && (!r.success ==> !r.pushed)
  }

  /** The push step: it pushes exactly when ahead or just committed, and records the outcome. */
  lemma PushPhaseOutcome(oracle: Oracle, h: seq<Command>, r: SyncResult, acc: seq<Command>)
    requires Pending(r)
    ensures var out := PushPhase(oracle, h, r, acc);
      && WellReported(out.0)
      && out.0.pulled == r.pulled && out.0.committed == r.committed
      && (out.1 == acc + [RevListCount] || out.1 == acc + [RevListCount] + [Push])
      && (out.1 == acc + [RevListCount] + [Push] <==> AheadBehind(oracle, h + acc).0.ahead > 0 || r.committed)
      && (out.0.pushed ==> out.1 == acc + [RevListCount] + [Push])
      && out.0.message != ConflictMessage
    ensures var out := PushPhase(oracle, h, r, acc);
      var push := Run(oracle, h + (acc + [RevListCount]), Push);
      var pushes := AheadBehind(oracle, h + acc).0.ahead > 0 || r.committed;
      && (!pushes ==> out.0 == Finish(r))
      && (pushes && push.Ok? ==> out.0 == Finish(r.(pushed := true)))
      && (pushes && push.Err? && Contains(push.diagnostic, "rejected") ==>
            out.0.message == RejectedMessage && out.0.error == Some(push.diagnostic) && !out.0.pushed && !out.0.success)
      && (pushes && push.Err? && !Contains(push.diagnostic, "rejected") ==>
            out.0.message == SyncFailedMessage && out.0.error == Some(push.diagnostic) && !out.0.pushed && !out.0.success)
  {
    var acc1 := acc + [RevListCount];
    assert acc1 != acc1 + [Push] by { assert |acc1| != |acc1 + [Push]|; }
    MessagesDistinct(r);
    MessagesDistinct(r.(pushed := true));
  }

  /** The pull step: a conflict aborts the rebase and stops; otherwise the push step follows. */
  lemma PullPhaseOutcome(oracle: Oracle, h: seq<Command>, r: SyncResult, acc: seq<Command>)
    requires Pending(r) && !r.pulled
    ensures var out := PullPhase(oracle, h, r, acc);
      && WellReported(out.0)
      && out.0.committed == r.committed
      && (out.0.message == ConflictMessage ==>
            out.1 == acc + [RevListCount] + [PullRebase] + [RebaseAbort] && !out.0.pulled && !out.0.pushed)
      && (out.0.pushed ==> out.1 != [] && out.1[|out.1| - 1] == Push)
      && (out.0.pulled ==> PullRebase in out.1)
  {
    var behind := AheadBehind(oracle, h + acc).0.behind;
    var acc1 := acc + [RevListCount];
    if behind == 0 {
      PushPhaseOutcome(oracle, h, r, acc1);
    } else {
      var pull := Run(oracle, h + acc1, PullRebase);
      var acc2 := acc1 + [PullRebase];
      if pull.Ok? {
        PushPhaseOutcome(oracle, h, r.(pulled := true), acc2);
        PushPhaseShape(oracle, h, r.(pulled := true), acc2);
        assert PullRebase in acc2;
      }
    }
  }

  /**
   * How the pull step classifies its outcome: the rebase pull is issued
   * exactly when the fresh divergence query reports the branch behind; a
   * successful pull goes on to the push step with `pulled` set; a conflict
   * whose abort succeeds reports the conflict text and the pull's error; an
   * abort failure or any other pull error is "Sync failed" with its text.
   */
  lemma PullPhaseClassifies(oracle: Oracle, h: seq<Command>, r: SyncResult, acc: seq<Command>)
    requires Pending(r) && !r.pulled
    ensures var out := PullPhase(oracle, h, r, acc);
      var acc1 := acc + [RevListCount];
      var pull := Run(oracle, h + acc1, PullRebase);
      var abort := Run(oracle, h + (acc1 + [PullRebase]), RebaseAbort);
      && (PullRebase in out.1 <==> PullRebase in acc || AheadBehind(oracle, h + acc).0.behind > 0)
      && (AheadBehind(oracle, h + acc).0.behind == 0 ==> out == PushPhase(oracle, h, r, acc1))
      && (AheadBehind(oracle, h + acc).0.behind > 0 && pull.Ok? ==>
            out == PushPhase(oracle, h, r.(pulled := true), acc1 + [PullRebase]) && out.0.pulled)
      && (AheadBehind(oracle, h + acc).0.behind > 0 && pull.Err? && IsConflict(pull.diagnostic) && abort.Ok? ==>
            out.0.message == ConflictMessage && out.0.error == Some(pull.diagnostic) && !out.0.success && !out.0.pulled)
      && (AheadBehind(oracle, h + acc).0.behind > 0 && pull.Err? && IsConflict(pull.diagnostic) && abort.Err? ==>
            out.0.message == SyncFailedMessage && out.0.error == Some(abort.diagnostic) && !out.0.success)
      && (AheadBehind(oracle, h + acc).0.behind > 0 && pull.Err? && !IsConflict(pull.diagnostic) ==>
            out.0.message == SyncFailedMessage && out.0.error == Some(pull.diagnostic) && !out.0.success)
  {
    var acc1 := acc + [RevListCount];
    if AheadBehind(oracle, h + acc).0.behind == 0 {
      PushPhaseShape(oracle, h, r, acc1);
      var out := PullPhase(oracle, h, r, acc);
      assert PullRebase !in [RevListCount, RevListCount, Push];
      assert out.1 == acc + [RevListCount, RevListCount] || out.1 == acc + [RevListCount, RevListCount, Push];
    } else {
      var acc2 := acc1 + [PullRebase];
      assert PullRebase in acc2;
      if Run(oracle, h + acc1, PullRebase).Ok? {
        PushPhaseShape(oracle, h, r.(pulled := true), acc2);
        PushPhaseOutcome(oracle, h, r.(pulled := true), acc2);
      }
    }
  }

  /** The pull and push steps only append to the commands issued before them. */
  lemma PullPhaseExtends(oracle: Oracle, h: seq<Command>, r: SyncResult, acc: seq<Command>)
    ensures var out := PullPhase(oracle, h, r, acc);
      |out.1| > |acc| && forall i :: 0 <= i < |acc| ==> out.1[i] == acc[i]
  {
    var behind := AheadBehind(oracle, h + acc).0.behind;
    var acc1 := acc + [RevListCount];
    var acc2 := acc1 + [PullRebase];
    if behind == 0 {
      PushPhaseShape(oracle, h, r, acc1);
    } else if Run(oracle, h + acc1, PullRebase).Ok? {
      PushPhaseShape(oracle, h, r.(pulled := true), acc2);
      assert forall i :: 0 <= i < |acc| ==> acc2[i] == acc[i];
    }
  }

  /** The push step issues the divergence query and, possibly, the push; nothing else. */
  lemma PushPhaseShape(oracle: Oracle, h: seq<Command>, r: SyncResult, acc: seq<Command>)
    ensures var out := PushPhase(oracle, h, r, acc);
      out.1 == acc + [RevListCount] || out.1 == acc + [RevListCount] + [Push]
  {
  }

  /** After a successful fetch, the run is the local commit step followed by the pull step. */
  lemma SyncAfterFetch(oracle: Oracle, h: seq<Command>, now: string)
    requires oracle(h, Fetch).Exited?
    ensures SyncSpec(oracle, h, now) == PullPhase(oracle, h, InitialResult.(committed := LocalCommit(oracle, h, now).0), LocalCommit(oracle, h, now).1)
  {
  }

  /** A failed fetch ends the run at once: "Sync failed" with the fetch's error text, and nothing else issued. */
  lemma SyncFetchFailure(oracle: Oracle, h: seq<Command>, now: string)
    requires oracle(h, Fetch).Failed?
    ensures var out := SyncSpec(oracle, h, now);
      && out.1 == [Fetch]
      && out.0 == SyncResult(false, SyncFailedMessage, false, false, false, Some(Run(oracle, h, Fetch).diagnostic))
  {
  }

  /**
   * Every run is well reported (success exactly when no error is recorded,
   * the success message built from the recorded actions, one of the three
   * failure texts otherwise, never `pushed` on failure); it starts with a
   * fetch; a conflict ends with `rebase --abort` and reports neither pull nor
   * push; `pushed` means the last command was the push; `committed` means
   * there were changes and the commit was issued.
   */
  lemma SyncOutcome(oracle: Oracle, h: seq<Command>, now: string)
    ensures var out := SyncSpec(oracle, h, now);
      && WellReported(out.0)
      && |out.1| >= 1 && out.1[0] == Fetch
      && (out.0.message == ConflictMessage ==> out.1[|out.1| - 1] == RebaseAbort && !out.0.pulled && !out.0.pushed)
      && (out.0.pushed ==> out.1[|out.1| - 1] == Push)
      && (out.0.committed ==> Status(oracle, h + [Fetch]).0.hasChanges && Commit(CommitDate(now)) in out.1)
  {
    if oracle(h, Fetch).Exited? {
      var local := LocalCommit(oracle, h, now);
      var r := InitialResult.(committed := local.0);
      SyncAfterFetch(oracle, h, now);
      PullPhaseOutcome(oracle, h, r, local.1);
      PullPhaseExtends(oracle, h, r, local.1);
      var out := PullPhase(oracle, h, r, local.1);
      if local.0 {
        assert out.1[|local.1| - 1] == Commit(CommitDate(now));
      }
    } else {
      SyncFetchFailure(oracle, h, now);
    }
  }

  /** A run reports `pulled` only when it issued the rebase pull. */
  lemma SyncPulledIssued(oracle: Oracle, h: seq<Command>, now: string)
    ensures var out := SyncSpec(oracle, h, now);
      out.0.pulled ==> PullRebase in out.1
  {
    if oracle(h, Fetch).Exited? {
      var local := LocalCommit(oracle, h, now);
      SyncAfterFetch(oracle, h, now);
      PullPhaseOutcome(oracle, h, InitialResult.(committed := local.0), local.1);
    }
  }

  /** The success report: the performed actions collected in a list and joined into the message. */
  method FinishStep(result: SyncResult) returns (result': SyncResult)
    ensures result' == Finish(result)
  {
    var actions: seq<string> := [];
    if result.pulled { actions := actions + ["pulled"]; }
    assert actions == if result.pulled then ["pulled"] else [];
    if result.committed { actions := actions + ["committed"]; }
    if result.pushed { actions := actions + ["pushed"]; }
    assert actions == Actions(result);
    result' := result.(success := true);
    result' := result'.(message := if |actions| > 0 then "Synced: " + Join(actions, ", ") else UpToDateMessage);
  }

  /** The `git add` loop over the allow-listed roots, then the dated commit. */
  method CommitStep(oracle: Oracle, h: seq<Command>, issued: seq<Command>, now: string) returns (committed: bool, issued': seq<Command>)
    ensures (committed, issued') == CommitPhase(oracle, h, issued, now)
  {
    issued' := issued;
    for k := 0 to |TrackedPaths|
      invariant issued' == issued + AddCommands(TrackedPaths[..k])
    {
      // a failing `git add` is ignored: the path may not exist yet
      var added := Run(oracle, h + issued', Add(TrackedPaths[k]));
      assert TrackedPaths[..k + 1][..k] == TrackedPaths[..k];
      AppendAssoc(issued, AddCommands(TrackedPaths[..k]), [Add(TrackedPaths[k])]);
      issued' := issued' + [Add(TrackedPaths[k])];
    }
    assert TrackedPaths[..|TrackedPaths|] == TrackedPaths;
    var date := Split(now, "T")[0];
    var commit := Run(oracle, h + issued', Commit(date));
    issued' := issued' + [Commit(date)];
    committed := commit.Ok?;
  }

  /** The second divergence query and the push when ahead or just committed. */
  method PushStep(oracle: Oracle, h: seq<Command>, result: SyncResult, issued: seq<Command>) returns (result': SyncResult, issued': seq<Command>)
    ensures (result', issued') == PushPhase(oracle, h, result, issued)
  {
    result' := result;
    var ahead := AheadBehind(oracle, h + issued).0.ahead;
    issued' := issued + [RevListCount];
    if ahead > 0 || result'.committed {
      var push := Run(oracle, h + issued', Push);
      issued' := issued' + [Push];
      if push.Ok? {
        result' := result'.(pushed := true);
      } else if Contains(push.diagnostic, "rejected") {
        result' := result'.(message := RejectedMessage, error := Some(push.diagnostic));
        return;
      } else {
        result' := result'.(message := SyncFailedMessage, error := Some(push.diagnostic));
        return;
      }
    }
    result' := FinishStep(result');
  }

  /** The first divergence query, the rebase pull when behind (aborted on a conflict), then the push step. */
  method PullStep(oracle: Oracle, h: seq<Command>, result: SyncResult, issued: seq<Command>) returns (result': SyncResult, issued': seq<Command>)
    ensures (result', issued') == PullPhase(oracle, h, result, issued)
  {
    result' := result;
    var behind := AheadBehind(oracle, h + issued).0.behind;
    issued' := issued + [RevListCount];
    if behind > 0 {
      var pull := Run(oracle, h + issued', PullRebase);
      issued' := issued' + [PullRebase];
      if pull.Ok? {
        result' := result'.(pulled := true);
      } else if Contains(pull.diagnostic, "conflict") || Contains(pull.diagnostic, "CONFLICT") {
        var abort := Run(oracle, h + issued', RebaseAbort);
        issued' := issued' + [RebaseAbort];
        if abort.Err? {
          result' := result'.(message := SyncFailedMessage, error := Some(abort.diagnostic));
          return;
        }
        result' := result'.(message := ConflictMessage, error := Some(pull.diagnostic));
        return;
      } else {
        result' := result'.(message := SyncFailedMessage, error := Some(pull.diagnostic));
        return;
      }
    }
    result', issued' := PushStep(oracle, h, result', issued');
  }

  /**
   * `sync`: a result record updated field by field as the steps run, with an
   * early return when the fetch fails.
   */
  method Sync(oracle: Oracle, h: seq<Command>, now: string) returns (result: SyncResult, issued: seq<Command>)
    ensures (result, issued) == SyncSpec(oracle, h, now)
  {
    result := InitialResult;
    var fetch := Run(oracle, h, Fetch);
    issued := [Fetch];
    if fetch.Err? {
      result := result.(message := SyncFailedMessage, error := Some(fetch.diagnostic));
      return;
    }
    var status, statusIssued := GetGitStatus(oracle, h + issued);
    issued := issued + statusIssued;
    if status.hasChanges {
      var committed;
      committed, issued := CommitStep(oracle, h, issued, now);
      result := result.(committed := committed);
    }
    result, issued := PullStep(oracle, h, result, issued);
  }
}
