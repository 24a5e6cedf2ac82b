/**
 * The usage table the host prints for a list of argument descriptors: each
 * switch with its post-argument syntax on the left, its description aligned
 * at two sevenths of the window width and word-wrapped to the window.
 *
 * Word wrapping is a parameter `wordWrap(text, width)` returning the lines;
 * the window width is a parameter `columns` (a terminal width, never
 * negative).
 */
module UsageLayout {
  import opened Wrappers
  import opened Text
  import opened TaskCommon

  /** The column where descriptions start: two sevenths of the width, rounded down. */
  function DescStart(columns: nat): (c: nat)
    ensures c <= columns
    ensures 7 * c <= 2 * columns < 7 * c + 7
  {
    columns * 2 / 7
  }

  /** The switch and, when there is one, its post-argument syntax, indented by two. */
  function Head(d: ArgumentDescriptor): string {
    "  " + d.argument + (if !IsNullOrEmpty(d.postArguments) then " " + d.postArguments.value else "")
  }

  /** The running line length the formatter counts for `Head`. */
  function LineLength(d: ArgumentDescriptor): int {
    2 + |d.argument| + (if !IsNullOrEmpty(d.postArguments) then 1 + |d.postArguments.value| else 0)
  }

  /** The wrapped description, continuation lines indented to the description column. */
  function Body(description: string, columns: nat, wordWrap: (string, int) -> seq<string>): string {
    var descstart := DescStart(columns);
    Join(NewLine + Spaces(descstart), wordWrap(description, columns - descstart - 1))
  }

  /** The text written for one descriptor. */
  function Entry(d: ArgumentDescriptor, columns: nat, wordWrap: (string, int) -> seq<string>): string {
    var descstart := DescStart(columns);
    if !IsNullOrEmpty(d.description) then
      Head(d)
      + (if LineLength(d) > descstart then NewLine + Spaces(descstart) else Spaces(descstart - LineLength(d)))
      + Body(d.description.value, columns, wordWrap) + NewLine
    else Head(d) + NewLine
  }

  /** The whole table: one entry per descriptor, in order. */
  function Layout(descs: seq<ArgumentDescriptor>, columns: nat, wordWrap: (string, int) -> seq<string>): string
  {
    if descs == [] then ""
    else Layout(descs[..|descs| - 1], columns, wordWrap) + Entry(descs[|descs| - 1], columns, wordWrap)
  }

  /** `FormatArgumentDescriptors`: builds the table in a string builder, descriptor by descriptor. */
  method FormatArgumentDescriptors(args: seq<ArgumentDescriptor>, columns: nat,
                                   wordWrap: (string, int) -> seq<string>) returns (r: string)
    ensures r == Layout(args, columns, wordWrap)
  {
    var sb := "";
    for i := 0 to |args|
      invariant sb == Layout(args[..i], columns, wordWrap)
    {
      assert args[..i + 1][..i] == args[..i];
      sb := AppendEntry(sb, args[i], columns, wordWrap);
    }
    assert args[..|args|] == args;
    return sb;
  }

  /** The body of the formatter's loop: appends the entry of one descriptor. */
  method AppendEntry(sb: string, arg: ArgumentDescriptor, columns: nat,
                     wordWrap: (string, int) -> seq<string>) returns (r: string)
    ensures r == sb + Entry(arg, columns, wordWrap)
  {
    var descstart := columns * 2 / 7;
    var line := "  " + arg.argument;
    var lineLength := 2 + |arg.argument|;
    if !IsNullOrEmpty(arg.postArguments) {
      lineLength := lineLength + 1 + |arg.postArguments.value|;
      line := line + " " + arg.postArguments.value;
    }
    assert line == Head(arg) && lineLength == LineLength(arg);
    if !IsNullOrEmpty(arg.description) {
      if lineLength > descstart {
        line := line + NewLine + Spaces(descstart);
      } else {
        line := line + Spaces(descstart - lineLength);
      }
      line := line + Join(NewLine + Spaces(descstart), wordWrap(arg.description.value, columns - descstart - 1))
              + NewLine;
    } else {
      line := line + NewLine;
    }
    r := sb + line;
  }

  // =====================================================================
  // Properties

  /** The running line length is the length of what was written for the switch. */
  lemma HeadLength(d: ArgumentDescriptor)
    ensures |Head(d)| == LineLength(d)
  {
  }

  /**
   * Column alignment: a description starts at column `descstart`, on the
   * switch's own line when the switch fits before that column, otherwise on
   * the next line after `descstart` spaces; a descriptor without a
   * description is just its switch line.
   */
  lemma EntryColumns(d: ArgumentDescriptor, columns: nat, wordWrap: (string, int) -> seq<string>)
    ensures var e, h, descstart := Entry(d, columns, wordWrap), Head(d), DescStart(columns);
            && IsPrefix(h, e)
            && (IsNullOrEmpty(d.description) ==> e == h + NewLine)
            && (!IsNullOrEmpty(d.description) && |h| <= descstart ==>
                  && e[..descstart] == h + Spaces(descstart - |h|)
                  && e[descstart..] == Body(d.description.value, columns, wordWrap) + NewLine)
            && (!IsNullOrEmpty(d.description) && |h| > descstart ==>
                  && e[|h|..|h| + 2] == NewLine
                  && e[|h| + 2..|h| + 2 + descstart] == Spaces(descstart)
                  && e[|h| + 2 + descstart..] == Body(d.description.value, columns, wordWrap) + NewLine)
  {
    var e, h, descstart := Entry(d, columns, wordWrap), Head(d), DescStart(columns);
    HeadLength(d);
    if !IsNullOrEmpty(d.description) {
      var body := Body(d.description.value, columns, wordWrap) + NewLine;
      if |h| <= descstart {
        var pad := Spaces(descstart - |h|);
        assert e == (h + pad) + body;
      } else {
        assert e == h + NewLine + Spaces(descstart) + body;
        assert e == h + (NewLine + (Spaces(descstart) + body));
      }
    }
  }
}
