/**
 * The plain records every scheduled task shares: the description of one
 * command-line argument, and the dependency bundle a task is handed before
 * it runs.
 */
module TaskCommon {
  import opened Wrappers

  /**
   * One command-line switch of a task: the switch itself, the syntax of what
   * follows it and a description. The last two may be `null` (`None`).
   */
  datatype ArgumentDescriptor = ArgumentDescriptor(
    argument: string,
    postArguments: Option<string>,
    description: Option<string>)

  /** `new ArgumentDescriptor(arg, description)`: no post-argument syntax. */
  function Described(arg: string, description: string): (r: ArgumentDescriptor)
    ensures r.argument == arg && r.postArguments.None? && r.description == Some(description)
  {
    ArgumentDescriptor(arg, None, Some(description))
  }

  /** `new ArgumentDescriptor(arg, postArgs, description)`. */
  function DescribedWith(arg: string, postArgs: string, description: string): (r: ArgumentDescriptor)
    ensures r.argument == arg && r.postArguments == Some(postArgs) && r.description == Some(description)
  {
    ArgumentDescriptor(arg, Some(postArgs), Some(description))
  }

  /**
   * What the host reads from a registered task: its code, display name,
   * business description and argument descriptors.
   */
  datatype TaskInfo = TaskInfo(
    code: string,
    name: string,
    description: string,
    argumentDescriptors: seq<ArgumentDescriptor>)

  /**
   * The diagnostic reporting service a task logs through. Its behaviour is not
   * part of this model; only whether a reference is present matters.
   */
  datatype Reporter = Reporter(id: nat)

  /** The dependency bundle handed to a task: a non-null reporter. */
  datatype TaskDependencies = TaskDependencies(diagnostics: Reporter)

  /**
   * `new TaskDependencies(diagnosticReporting)`: a null reporter is refused
   * with an `ArgumentNullException` naming the parameter; any other reporter is
   * kept as given.
   */
  function NewTaskDependencies(diagnosticReporting: Option<Reporter>): (r: Result<TaskDependencies>)
    ensures r.Failure? <==> diagnosticReporting.None?
    ensures r.Failure? ==> r.error == ArgumentNull("diagnosticReporting")
    ensures r.Success? ==> r.value.diagnostics == diagnosticReporting.value
  {
    if diagnosticReporting.None? then Failure(ArgumentNull("diagnosticReporting"))
    else Success(TaskDependencies(diagnosticReporting.value))
  }
}
