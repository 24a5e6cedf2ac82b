/**
 * The UPS tracking task: its code, name and description, the one switch it
 * accepts (`/filename <filename>`) and the parser for it. Running it is
 * not implemented in the program: it throws `NotImplementedException`.
 */
module UpsTrackingTask {
  import opened Wrappers
  import opened Text
  import opened TaskCommon
  import BaseTasks

  /** The code this task hands to its base class (used for tracing). */
  const TracingCategory: string := "VN.Task.UPStracking"
  const TaskCode: string := "VN_SHIPPING_UPSTRACKING"
  const TaskName: string := "VendorNet Shpipping Ups Tracking Scheduled Task"
  const TaskDescription: string := "Calls out to UPS and downloads the tracking numbers for the givin shipped items."
  const FilenameSwitch: string := "/filename"

  /** Its switches, replacing the defaults: exactly `/filename <filename>`. */
  function ArgumentDescriptors(): (r: seq<ArgumentDescriptor>)
    ensures |r| == 1
    ensures r[0].argument == FilenameSwitch && r[0].postArguments == Some("<filename>")
    ensures r[0].description.Some? && r[0].description.value != []
  {
    [ArgumentDescriptor(FilenameSwitch, Some("<filename>"), Some(" The csv file to parse for batch registrations."))]
  }

  // =====================================================================
  // ParseArguments: specification

  /** The token names the file: it contains "/filename" anywhere, case-sensitively. */
  predicate NamesFile(token: string) {
    Contains(token, FilenameSwitch)
  }

  /**
   * What `ParseArguments` returns for the tokens still in its queue: tokens
   * that do not name the file are passed over; the first one that does
   * decides, by whether a value follows it.
   */
  function Parse(queue: seq<string>): bool
    decreases |queue|
  {
    if queue == [] then false
    else if !NamesFile(queue[0]) then Parse(queue[1..])
    else |queue| > 1
  }

  // =====================================================================
  // The UPS tracking task class

  class UpsTracking {
    /** The state this task inherits from `BaseTask`. */
    const base: BaseTasks.BaseTask

    /** `new UpsTracking()`: the base class is given the tracing category as its code. */
    constructor()
      ensures fresh(base)
      ensures base.taskCode == TracingCategory && !base.allowMultipleInstances && base.taskDependencies.None?
    {
      base := new BaseTasks.BaseTask(TracingCategory);
    }

    /** `ParseArguments`: consumes the tokens from a queue, front to back. */
    method ParseArguments(args: seq<string>) returns (ok: bool)
      ensures ok == Parse(args)
    {
      var argQueue := args;
      while |argQueue| > 0
        invariant Parse(argQueue) == Parse(args)
        decreases |argQueue|
      {
        var arg := argQueue[0];
        argQueue := argQueue[1..];
        if !Contains(arg, FilenameSwitch) {
          continue;
        }
        if |argQueue| == 0 {
          return false;
        }
        var argVal := argQueue[0];
        argQueue := argQueue[1..];
        return true;
      }
      return false;
    }

    /** `Run`: not implemented; it always throws. */
    method Run() returns (r: Result<bool>)
      ensures r.Failure? && r.error == NotImplemented
    {
      return Failure(NotImplemented);
    }
  }

  // =====================================================================
  // ParseArguments: properties

  /** Position `i` holds the first token that names the file. */
  predicate FirstNamesFileAt(args: seq<string>, i: int) {
    && 0 <= i < |args|
    && NamesFile(args[i])
    && forall j :: 0 <= j < i ==> !NamesFile(args[j])
  }

  /**
   * The arguments are accepted exactly when some token names the file and the
   * first such token is not the last one: tokens before it are passed over,
   * whatever they are, and tokens after its value are never looked at.
   */
  lemma {:induction false} ParseIff(args: seq<string>)
    ensures Parse(args) <==> exists i :: FirstNamesFileAt(args, i) && i < |args| - 1
    decreases |args|
  {
    if args == [] {
    } else if NamesFile(args[0]) {
      assert FirstNamesFileAt(args, 0);
      forall i | FirstNamesFileAt(args, i)
        ensures i == 0
      {
      }
    } else {
      var rest := args[1..];
      ParseIff(rest);
      if Parse(args) {
        var k :| FirstNamesFileAt(rest, k) && k < |rest| - 1;
        assert FirstNamesFileAt(args, k + 1) by {
          forall j | 0 <= j < k + 1
            ensures !NamesFile(args[j])
          {
            if j > 0 {
              assert args[j] == rest[j - 1];
            }
          }
        }
      } else {
        forall i | FirstNamesFileAt(args, i)
          ensures i >= |args| - 1
        {
          assert i > 0;
          assert FirstNamesFileAt(rest, i - 1) by {
            forall j | 0 <= j < i - 1
              ensures !NamesFile(rest[j])
            {
              assert rest[j] == args[j + 1];
            }
          }
        }
      }
    }
  }

  /** Without a token naming the file, the arguments are rejected (the empty list too). */
  lemma NoFileRejected(args: seq<string>)
    requires forall i :: 0 <= i < |args| ==> !NamesFile(args[i])
    ensures !Parse(args)
  {
    ParseIff(args);
  }

  /**
   * Recognition is case-sensitive containment: a token with "/filename"
   * inside it counts, an upper-case spelling does not.
   */
  lemma FilenameRecognition()
    ensures NamesFile("x/filenames") && !NamesFile("/FILENAME")
  {
    assert OccursAt("x/filenames", FilenameSwitch, 1);
    ContainsIff("x/filenames", FilenameSwitch);
    ContainsIff("/FILENAME", FilenameSwitch);
    forall i ensures !OccursAt("/FILENAME", FilenameSwitch, i) {
      if i == 0 {
        assert "/FILENAME"[1] != FilenameSwitch[1];
      }
    }
  }

  /** Its task code passes the start-up identifier check; the tracing category would not. */
  lemma TaskCodeIsIdentifier()
    ensures IsIdentifier(TaskCode)
    ensures !IsIdentifier(TracingCategory)
  {
    assert TracingCategory[2] == '.';
  }
}
