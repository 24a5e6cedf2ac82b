/**
 * The command-line host: it validates the codes of the registered tasks,
 * then reads its arguments from a queue and dispatches the first `/help` or
 * `/list` command it meets, setting the process exit code.
 *
 * Start-up and dependency-injection work is not modelled: the registered
 * tasks are given as a list of records. The console is a list of events; the
 * usage text is one `Usage` event. The window width and word wrapping are
 * parameters.
 */
module TaskManager {
  import opened Wrappers
  import opened Text
  import opened TaskCommon
  import opened UsageLayout

  /** What the host writes to, or reads from, the console. */
  datatype Event =
    | Usage               // the general usage text
    | Out(line: string)   // a line on standard output
    | Err(line: string)   // a line on standard error
    | ReadLine            // waiting for a line of input

  /** The exit code the process ends with and the console events on the way. */
  datatype Session = Session(exitCode: int, events: seq<Event>)

  const HelpCommand: string := "/help"
  const ListCommand: string := "/list"
  const RunCommand: string := "/run"

  /** The message of the exception `SingleOrDefault` throws for more than one element. */
  const MoreThanOneElementMessage: string := "Sequence contains more than one element"

  /** Continuation indents: under "Description: ", under "  " and under "  Description: ". */
  const HelpIndent: string := "             "
  const PurposeIndent: string := "  "
  const ListIndent: string := "               "

  // =====================================================================
  // Commands

  /** The token is the command, in any case (no trimming). */
  predicate IsCommand(token: string, command: string) {
    Lower(token) == command
  }

  /** `IsCommand` is the `CaseInsensitiveEquals` comparison the host makes against each command. */
  lemma CommandMatch(token: string)
    ensures IsCommand(token, HelpCommand) <==> CaseInsensitiveEquals(token, HelpCommand)
    ensures IsCommand(token, ListCommand) <==> CaseInsensitiveEquals(token, ListCommand)
    ensures IsCommand(token, RunCommand) <==> CaseInsensitiveEquals(token, RunCommand)
  {
    assert Lower(HelpCommand) == HelpCommand;
    assert Lower(ListCommand) == ListCommand;
    assert Lower(RunCommand) == RunCommand;
  }

  /** The token is `/help` or `/list`: a command that ends the dispatch loop. */
  predicate IsFinalCommand(token: string) {
    IsCommand(token, HelpCommand) || IsCommand(token, ListCommand)
  }

  /** Every registered task code passes the identifier check. */
  predicate AllValid(tasks: seq<TaskInfo>) {
    forall i :: 0 <= i < |tasks| ==> IsIdentifier(tasks[i].code)
  }

  // =====================================================================
  // /help <code>

  /** The registered tasks whose code equals `code`, ignoring case and surrounding white space. */
  function Matches(tasks: seq<TaskInfo>, code: string): seq<TaskInfo>
  {
    if tasks == [] then []
    else
      var last := tasks[|tasks| - 1];
      Matches(tasks[..|tasks| - 1], code) + (if CaseInsensitiveTrimmedEquals(last.code, code) then [last] else [])
  }

  /** The help text of one task. */
  function HelpText(task: TaskInfo, width: nat, wordWrap: (string, int) -> seq<string>): seq<Event> {
    [ Out("Task Code:   \"" + task.code + "\""),
      Out("Description: " + Join(NewLine + HelpIndent, wordWrap(task.name, width - 14))),
      Out(""),
      Out("Business Purpose:"),
      Out(""),
      Out(PurposeIndent + Join(NewLine + PurposeIndent, wordWrap(task.description, width - 3))),
      Out(""),
      Out("Usage:"),
      Out(""),
      Out(Layout(task.argumentDescriptors, width, wordWrap)),
      Out("Scheduling:"),
      Out("") ]
  }

  /**
   * `/help <code>`: that task's help text; an error line and exit code -1 when
   * no task matches; and when several match, the exception `SingleOrDefault`
   * throws, which the host's handler prints before waiting for a line of input.
   */
  function HelpFor(code: string, tasks: seq<TaskInfo>, width: nat, wordWrap: (string, int) -> seq<string>): Session
  {
    var matches := Matches(tasks, code);
    if |matches| > 1 then Session(0, [Out(MoreThanOneElementMessage), ReadLine])
    else if matches == [] then Session(-1, [Err("Could not find task for code \"" + code + "\"")])
    else Session(0, HelpText(matches[0], width, wordWrap))
  }

  // =====================================================================
  // /list

  /** `OrderBy` on task codes: a stable insertion of one task into an ordered list. */
  function Insert(t: TaskInfo, s: seq<TaskInfo>): (r: seq<TaskInfo>)
    ensures |r| == |s| + 1
  {
    if s == [] then [t]
    else if OrdinalLeq(t.code, s[0].code) then [t] + s
    else [s[0]] + Insert(t, s[1..])
  }

  /** The tasks ordered by code. */
  function OrderByCode(tasks: seq<TaskInfo>): (r: seq<TaskInfo>)
    ensures |r| == |tasks|
  {
    if tasks == [] then [] else Insert(tasks[0], OrderByCode(tasks[1..]))
  }

  predicate SortedByCode(s: seq<TaskInfo>) {
    forall i, j :: 0 <= i < j < |s| ==> OrdinalLeq(s[i].code, s[j].code)
  }

  /** The three lines `/list` writes for one task. */
  function ListEntry(task: TaskInfo, width: nat, wordWrap: (string, int) -> seq<string>): seq<Event> {
    [ Out("  Task Code:   \"" + task.code + "\""),
      Out("  Description: " + Join(NewLine + ListIndent, wordWrap(task.name, width - 16))),
      Out("") ]
  }

  function Entries(tasks: seq<TaskInfo>, width: nat, wordWrap: (string, int) -> seq<string>): (r: seq<Event>)
    ensures |r| == 3 * |tasks|
  {
    if tasks == [] then []
    else Entries(tasks[..|tasks| - 1], width, wordWrap) + ListEntry(tasks[|tasks| - 1], width, wordWrap)
  }

  /** `/list`: a heading, then one entry per task in code order. */
  function Listing(tasks: seq<TaskInfo>, width: nat, wordWrap: (string, int) -> seq<string>): seq<Event> {
    [Out("Available tasks:"), Out("")] + Entries(OrderByCode(tasks), width, wordWrap)
  }

  // =====================================================================
  // The host

  /** The dispatch loop over the tokens still in the queue. */
  function Dispatch(queue: seq<string>, tasks: seq<TaskInfo>, width: nat,
                    wordWrap: (string, int) -> seq<string>): Session
    decreases |queue|
  {
    if queue == [] then Session(0, [])
    else if IsCommand(queue[0], HelpCommand) then
      if |queue| == 1 then Session(-1, [Usage])
      else HelpFor(queue[1], tasks, width, wordWrap)
    else if IsCommand(queue[0], ListCommand) then Session(0, Listing(tasks, width, wordWrap))
    else Dispatch(queue[1..], tasks, width, wordWrap)
  }

  /** A whole run of the host on its command-line arguments. */
  function Host(args: seq<string>, tasks: seq<TaskInfo>, width: nat,
                wordWrap: (string, int) -> seq<string>): Session
  {
    if args == [] then Session(-1, [Usage])
    else if !AllValid(tasks) then Session(-1, [])
    else Dispatch(args, tasks, width, wordWrap)
  }

  /** The host's entry point, from the argument check onward. */
  method ProcessCommandLine(args: seq<string>, tasks: seq<TaskInfo>, width: nat,
                            wordWrap: (string, int) -> seq<string>) returns (exitCode: int, events: seq<Event>)
    ensures Session(exitCode, events) == Host(args, tasks, width, wordWrap)
  {
    exitCode, events := 0, [];
    if |args| == 0 {
      events := events + [Usage];
      exitCode := -1;
      return;
    }
    if exists i :: 0 <= i < |tasks| && !IsIdentifier(tasks[i].code) {
      exitCode := -1;
      return;
    }
    var argQueue := args;
    while |argQueue| > 0
      invariant Dispatch(argQueue, tasks, width, wordWrap) == Dispatch(args, tasks, width, wordWrap)
      invariant exitCode == 0 && events == []
      decreases |argQueue|
    {
      var arg := argQueue[0];
      argQueue := argQueue[1..];
      if IsCommand(arg, HelpCommand) {
        if |argQueue| == 0 {
          events := events + [Usage];
          exitCode := -1;
          return;
        }
        var code := argQueue[0];
        argQueue := argQueue[1..];
        exitCode, events := ShowHelp(code, tasks, width, wordWrap);
        return;
      } else if IsCommand(arg, ListCommand) {
        events := ListTasks(tasks, width, wordWrap);
        return;
      } else if IsCommand(arg, RunCommand) {
        // running a task is not implemented
      }
    }
  }

  /** The `/help <code>` branch. */
  method ShowHelp(code: string, tasks: seq<TaskInfo>, width: nat,
                  wordWrap: (string, int) -> seq<string>) returns (exitCode: int, events: seq<Event>)
    ensures Session(exitCode, events) == HelpFor(code, tasks, width, wordWrap)
  {
    var matches := Matches(tasks, code);
    if |matches| > 1 {
      return 0, [Out(MoreThanOneElementMessage), ReadLine];
    }
    if |matches| == 0 {
      return -1, [Err("Could not find task for code \"" + code + "\"")];
    }
    events := WriteHelp(matches[0], width, wordWrap);
    exitCode := 0;
  }

  /** The help text of the one matching task, line by line. */
  method WriteHelp(task: TaskInfo, width: nat, wordWrap: (string, int) -> seq<string>) returns (events: seq<Event>)
    ensures events == HelpText(task, width, wordWrap)
  {
    events := [Out("Task Code:   \"" + task.code + "\"")];
    events := events + [Out("Description: " + Join(NewLine + HelpIndent, wordWrap(task.name, width - 14)))];
    events := events + [Out(""), Out("Business Purpose:"), Out("")];
    events := events + [Out(PurposeIndent + Join(NewLine + PurposeIndent, wordWrap(task.description, width - 3)))];
    events := events + [Out(""), Out("Usage:"), Out("")];
    var usage := FormatArgumentDescriptors(task.argumentDescriptors, width, wordWrap);
    events := events + [Out(usage), Out("Scheduling:"), Out("")];
  }

  /** The `/list` branch: the heading, then three lines per task in code order. */
  method ListTasks(tasks: seq<TaskInfo>, width: nat, wordWrap: (string, int) -> seq<string>)
    returns (events: seq<Event>)
    ensures events == Listing(tasks, width, wordWrap)
  {
    events := [Out("Available tasks:"), Out("")];
    var sorted := OrderByCode(tasks);
    for i := 0 to |sorted|
      invariant events == [Out("Available tasks:"), Out("")] + Entries(sorted[..i], width, wordWrap)
    {
      assert sorted[..i + 1][..i] == sorted[..i];
      var task := sorted[i];
      events := events + [Out("  Task Code:   \"" + task.code + "\"")];
      events := events + [Out("  Description: " + Join(NewLine + ListIndent, wordWrap(task.name, width - 16)))];
      events := events + [Out("")];
    }
    assert sorted[..|sorted|] == sorted;
  }

  // =====================================================================
  // Ordering by code: properties

  /** Inserting adds exactly the one task. */
  lemma {:induction false} InsertAdds(t: TaskInfo, s: seq<TaskInfo>)
    ensures multiset(Insert(t, s)) == multiset(s) + multiset{t}
  {
    if s != [] && !OrdinalLeq(t.code, s[0].code) {
      InsertAdds(t, s[1..]);
      assert s == [s[0]] + s[1..];
    }
  }

  /** Inserting keeps the list ordered. */
  lemma {:induction false} InsertSorted(t: TaskInfo, s: seq<TaskInfo>)
    requires SortedByCode(s)
    ensures SortedByCode(Insert(t, s))
  {
    if s == [] {
    } else if OrdinalLeq(t.code, s[0].code) {
      forall e | e in s
        ensures OrdinalLeq(t.code, e.code)
      {
        var k :| 0 <= k < |s| && s[k] == e;
        if k > 0 {
          OrdinalLeqTransitive(t.code, s[0].code, e.code);
        }
      }
      ConsSorted(t, s);
    } else {
      var tail := s[1..];
      var rest := Insert(t, tail);
      assert SortedByCode(tail);
      InsertSorted(t, tail);
      InsertAdds(t, tail);
      OrdinalLeqTotal(t.code, s[0].code);
      forall e | e in rest
        ensures OrdinalLeq(s[0].code, e.code)
      {
        assert e in multiset(rest);
        if e != t {
          assert e in multiset(tail);
          var k :| 0 <= k < |tail| && tail[k] == e;
          assert e == s[k + 1];
        }
      }
      ConsSorted(s[0], rest);
    }
  }

  /** An ordered list stays ordered behind a code no greater than any of its own. */
  lemma ConsSorted(x: TaskInfo, rest: seq<TaskInfo>)
    requires SortedByCode(rest)
    requires forall e | e in rest :: OrdinalLeq(x.code, e.code)
    ensures SortedByCode([x] + rest)
  {
    var r := [x] + rest;
    forall i, j | 0 <= i < j < |r|
      ensures OrdinalLeq(r[i].code, r[j].code)
    {
      assert r[j] == rest[j - 1] && rest[j - 1] in rest;
      if i > 0 {
        assert r[i] == rest[i - 1];
      }
    }
  }

  /** Ordering by code gives an ordered list of exactly the registered tasks. */
  lemma {:induction false} OrderByCodeSorted(tasks: seq<TaskInfo>)
    ensures SortedByCode(OrderByCode(tasks))
    ensures multiset(OrderByCode(tasks)) == multiset(tasks)
  {
    if tasks != [] {
      OrderByCodeSorted(tasks[1..]);
      InsertSorted(tasks[0], OrderByCode(tasks[1..]));
      InsertAdds(tasks[0], OrderByCode(tasks[1..]));
      assert tasks == [tasks[0]] + tasks[1..];
    }
  }

  // =====================================================================
  // /list: properties

  /** Entry `i` of the listing is the three lines of task `i`. */
  lemma {:induction false} EntriesAt(tasks: seq<TaskInfo>, width: nat, wordWrap: (string, int) -> seq<string>, i: nat)
    requires i < |tasks|
    ensures Entries(tasks, width, wordWrap)[3 * i..3 * i + 3] == ListEntry(tasks[i], width, wordWrap)
    decreases |tasks|
  {
    var front := tasks[..|tasks| - 1];
    if i < |tasks| - 1 {
      EntriesAt(front, width, wordWrap, i);
      assert front[i] == tasks[i];
    }
  }

  /**
   * `/list` writes a heading and then exactly one entry per registered task:
   * the entries name the tasks ordered by code, and every task is named as
   * often as it is registered.
   */
  lemma ListingShape(tasks: seq<TaskInfo>, width: nat, wordWrap: (string, int) -> seq<string>)
    ensures var out, sorted := Listing(tasks, width, wordWrap), OrderByCode(tasks);
            && |out| == 2 + 3 * |tasks|
            && out[..2] == [Out("Available tasks:"), Out("")]
            && SortedByCode(sorted) && multiset(sorted) == multiset(tasks)
            && forall i :: 0 <= i < |tasks| ==> out[2 + 3 * i] == Out("  Task Code:   \"" + sorted[i].code + "\"")
  {
    var out, sorted := Listing(tasks, width, wordWrap), OrderByCode(tasks);
    OrderByCodeSorted(tasks);
    var entries := Entries(sorted, width, wordWrap);
    assert out == [Out("Available tasks:"), Out("")] + entries;
    forall i | 0 <= i < |tasks|
      ensures out[2 + 3 * i] == Out("  Task Code:   \"" + sorted[i].code + "\"")
    {
      EntriesAt(sorted, width, wordWrap, i);
      assert entries[3 * i] == entries[3 * i..3 * i + 3][0];
      assert out[2 + 3 * i] == entries[3 * i];
    }
  }

  // =====================================================================
  // /help: properties

  /** A task matches exactly when it is registered and its code equals the given one, ignoring case and padding. */
  lemma {:induction false} MatchesMembers(tasks: seq<TaskInfo>, code: string, t: TaskInfo)
    ensures t in Matches(tasks, code) <==> t in tasks && CaseInsensitiveTrimmedEquals(t.code, code)
  {
    if tasks != [] {
      var front, last := tasks[..|tasks| - 1], tasks[|tasks| - 1];
      MatchesMembers(front, code, t);
      var keep := CaseInsensitiveTrimmedEquals(last.code, code);
      var tail := if keep then [last] else [];
      assert Matches(tasks, code) == Matches(front, code) + tail;
      InFrontOrLast(tasks, t);
      assert t in tail <==> t == last && keep;
    }
  }

  /** Membership in a non-empty list: in all but its last element, or its last element. */
  lemma InFrontOrLast<T>(s: seq<T>, x: T)
    requires s != []
    ensures x in s <==> x in s[..|s| - 1] || x == s[|s| - 1]
  {
    assert s == s[..|s| - 1] + [s[|s| - 1]];
  }

  /** Codes that differ only in case and surrounding white space find the same tasks. */
  lemma {:induction false} MatchesIgnoreCaseAndPadding(tasks: seq<TaskInfo>, code: string, other: string)
    requires CaseInsensitiveTrimmedEquals(code, other)
    ensures Matches(tasks, code) == Matches(tasks, other)
  {
    if tasks != [] {
      MatchesIgnoreCaseAndPadding(tasks[..|tasks| - 1], code, other);
    }
  }

  /**
   * The three outcomes of `/help <code>`: the one matching task's help text
   * (exit code 0, starting with its code); an error line naming the code
   * (exit code -1) when nothing matches; the exception's message and a wait
   * for input (exit code still 0) when several tasks match.
   */
  lemma HelpOutcomes(code: string, tasks: seq<TaskInfo>, width: nat, wordWrap: (string, int) -> seq<string>)
    ensures var h, m := HelpFor(code, tasks, width, wordWrap), Matches(tasks, code);
            && (h.exitCode == -1 <==> m == [])
            && (m == [] ==> h.events == [Err("Could not find task for code \"" + code + "\"")])
            && (|m| > 1 ==> h.events == [Out(MoreThanOneElementMessage), ReadLine])
            && (|m| == 1 ==> m[0] in tasks && CaseInsensitiveTrimmedEquals(m[0].code, code)
                             && |h.events| == 12 && h.events[0] == Out("Task Code:   \"" + m[0].code + "\""))
  {
    var m := Matches(tasks, code);
    if |m| == 1 {
      MatchesMembers(tasks, code, m[0]);
    }
  }

  // =====================================================================
  // The host: properties

  /** None of the tokens is `/help` or `/list`. */
  predicate NoFinalCommand(tokens: seq<string>) {
    forall i :: 0 <= i < |tokens| ==> !IsFinalCommand(tokens[i])
  }

  /** Tokens other than `/help` and `/list`, `/run` included, are passed over without effect. */
  lemma {:induction false} SkipTokens(prefix: seq<string>, rest: seq<string>, tasks: seq<TaskInfo>, width: nat,
                                      wordWrap: (string, int) -> seq<string>)
    requires NoFinalCommand(prefix)
    ensures Dispatch(prefix + rest, tasks, width, wordWrap) == Dispatch(rest, tasks, width, wordWrap)
    decreases |prefix|
  {
    if prefix != [] {
      var q := prefix + rest;
      assert q[0] == prefix[0] && !IsFinalCommand(q[0]);
      assert q[1..] == prefix[1..] + rest;
      assert Dispatch(q, tasks, width, wordWrap) == Dispatch(q[1..], tasks, width, wordWrap);
      SkipTokens(prefix[1..], rest, tasks, width, wordWrap);
    } else {
      assert prefix + rest == rest;
    }
  }

  /** Without `/help` or `/list` among the arguments nothing is written and the exit code is 0. */
  lemma NoCommandExitsZero(args: seq<string>, tasks: seq<TaskInfo>, width: nat, wordWrap: (string, int) -> seq<string>)
    requires args != [] && AllValid(tasks) && NoFinalCommand(args)
    ensures Host(args, tasks, width, wordWrap) == Session(0, [])
  {
    SkipTokens(args, [], tasks, width, wordWrap);
    assert args + [] == args;
  }

  /** `/help` with nothing after it shows the usage text and exits with -1. */
  lemma TrailingHelpShowsUsage(prefix: seq<string>, help: string, tasks: seq<TaskInfo>, width: nat,
                               wordWrap: (string, int) -> seq<string>)
    requires AllValid(tasks) && NoFinalCommand(prefix) && IsCommand(help, HelpCommand)
    ensures Host(prefix + [help], tasks, width, wordWrap) == Session(-1, [Usage])
  {
    SkipTokens(prefix, [help], tasks, width, wordWrap);
  }

  /**
   * The first `/help` or `/list` decides the run; whatever follows it (after
   * the code of `/help`) is never looked at.
   */
  lemma FirstCommandWins(prefix: seq<string>, command: string, code: string, rest: seq<string>,
                         tasks: seq<TaskInfo>, width: nat, wordWrap: (string, int) -> seq<string>)
    requires AllValid(tasks) && NoFinalCommand(prefix)
    ensures IsCommand(command, HelpCommand) ==>
              Host(prefix + [command, code] + rest, tasks, width, wordWrap) == HelpFor(code, tasks, width, wordWrap)
    ensures IsCommand(command, ListCommand) ==>
              Host(prefix + [command] + rest, tasks, width, wordWrap) == Session(0, Listing(tasks, width, wordWrap))
  {
    assert prefix + [command, code] + rest == prefix + ([command, code] + rest);
    assert prefix + [command] + rest == prefix + ([command] + rest);
    SkipTokens(prefix, [command, code] + rest, tasks, width, wordWrap);
    SkipTokens(prefix, [command] + rest, tasks, width, wordWrap);
    assert ([command, code] + rest)[1] == code;
  }

  /** The host exits with 0 or -1, and with -1 whenever a task code is not an identifier (writing nothing). */
  lemma {:induction false} ExitCodes(args: seq<string>, tasks: seq<TaskInfo>, width: nat,
                                     wordWrap: (string, int) -> seq<string>)
    ensures var h := Host(args, tasks, width, wordWrap);
            && (h.exitCode == 0 || h.exitCode == -1)
            && (args != [] && !AllValid(tasks) ==> h == Session(-1, []))
            && (args == [] ==> h == Session(-1, [Usage]))
  {
    if args != [] && AllValid(tasks) {
      DispatchExitCodes(args, tasks, width, wordWrap);
    }
  }

  lemma {:induction false} DispatchExitCodes(queue: seq<string>, tasks: seq<TaskInfo>, width: nat,
                                             wordWrap: (string, int) -> seq<string>)
    ensures Dispatch(queue, tasks, width, wordWrap).exitCode in {0, -1}
    decreases |queue|
  {
    if queue != [] && !IsFinalCommand(queue[0]) {
      DispatchExitCodes(queue[1..], tasks, width, wordWrap);
    }
  }
}
