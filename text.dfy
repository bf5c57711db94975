/**
 * `String.prototype.split` with a separator that matches exactly one
 * character (a one-character string, or a regular expression for one
 * character class), and the line split the symbol reader applies to a whole
 * file.
 */
module Text {

  /**
   * The pieces of s between the characters that `separator` accepts: one
   * piece more than there are separators, empty pieces included; the empty
   * string is one empty piece.
   */
  function Split(s: string, separator: char -> bool): (pieces: seq<string>)
    ensures |pieces| >= 1
  {
    if |s| == 0 then [""]
    else
      var rest := Split(s[1..], separator);
      if separator(s[0]) then [""] + rest else [[s[0]] + rest[0]] + rest[1..]
  }

  /** The number of characters of s that `separator` accepts. */
  function SeparatorCount(s: string, separator: char -> bool): nat {
    if |s| == 0 then 0 else (if separator(s[0]) then 1 else 0) + SeparatorCount(s[1..], separator)
  }

  /** Split yields one piece more than there are separators, and no piece holds a separator. */
  lemma {:induction false} SplitPieces(s: string, separator: char -> bool)
    ensures |Split(s, separator)| == SeparatorCount(s, separator) + 1
    ensures forall p, c :: p in Split(s, separator) && c in p ==> !separator(c)
    decreases |s|
  {
    if |s| > 0 {
      SplitPieces(s[1..], separator);
      var rest := Split(s[1..], separator);
      if !separator(s[0]) {
        var pieces := Split(s, separator);
        forall p, c | p in pieces && c in p
          ensures !separator(c)
        {
          if p == [s[0]] + rest[0] && c != s[0] {
            assert c in rest[0];
          } else if p != [s[0]] + rest[0] {
            assert p in rest;
          }
        }
      }
    }
  }

  /** The pieces put back together, each followed by its separator except the last. */
  function Join(pieces: seq<string>, separators: seq<char>): string
    requires |separators| + 1 == |pieces|
  {
    if |separators| == 0 then pieces[0]
    else pieces[0] + [separators[0]] + Join(pieces[1..], separators[1..])
  }

  /** The separators of s, in order. */
  function Separators(s: string, separator: char -> bool): (r: seq<char>)
    ensures |r| == SeparatorCount(s, separator)
  {
    if |s| == 0 then []
    else if separator(s[0]) then [s[0]] + Separators(s[1..], separator)
    else Separators(s[1..], separator)
  }

  /** Joining the pieces with the separators they were split at gives back the string. */
  lemma {:induction false} JoinSplit(s: string, separator: char -> bool)
    ensures |Split(s, separator)| == |Separators(s, separator)| + 1
    ensures Join(Split(s, separator), Separators(s, separator)) == s
    decreases |s|
  {
    SplitPieces(s, separator);
    if |s| > 0 {
      JoinSplit(s[1..], separator);
      var rest := Split(s[1..], separator);
      var seps := Separators(s[1..], separator);
      if separator(s[0]) {
        assert ([""] + rest)[1..] == rest;
        assert s == [s[0]] + s[1..];
      } else {
        var pieces := [[s[0]] + rest[0]] + rest[1..];
        if |seps| == 0 {
          assert s == [s[0]] + s[1..];
        } else {
          assert pieces[1..] == rest[1..];
          assert Join(rest, seps) == rest[0] + [seps[0]] + Join(rest[1..], seps[1..]);
          assert s == [s[0]] + s[1..];
        }
      }
    }
  }

  predicate IsNewline(c: char) {
    c == '\n'
  }

  /** A piece without the carriage return it ends with, if it ends with one. */
  function DropReturn(piece: string): string {
    if |piece| > 0 && piece[|piece| - 1] == '\r' then piece[..|piece| - 1] else piece
  }

  /**
   * `contents.split(/\n|\r\n/)`: the pieces between line feeds, where a
   * piece that a line feed ends loses one carriage return before it.
   */
  function Lines(contents: string): (lines: seq<string>)
    ensures |lines| == |Split(contents, IsNewline)|
  {
    var pieces := Split(contents, IsNewline);
    seq(|pieces|, i requires 0 <= i < |pieces| => if i < |pieces| - 1 then DropReturn(pieces[i]) else pieces[i])
  }

  /** There is one line more than there are line feeds, and no line holds a line feed. */
  lemma LinesOfContents(contents: string)
    ensures |Lines(contents)| == SeparatorCount(contents, IsNewline) + 1
    ensures forall i :: 0 <= i < |Lines(contents)| ==> '\n' !in Lines(contents)[i]
  {
    SplitPieces(contents, IsNewline);
    var pieces := Split(contents, IsNewline);
    forall i | 0 <= i < |pieces|
      ensures '\n' !in Lines(contents)[i]
    {
      assert pieces[i] in pieces;
      var line := Lines(contents)[i];
      assert forall j :: 0 <= j < |line| ==> line[j] == pieces[i][j];
      assert forall j :: 0 <= j < |line| ==> !IsNewline(line[j]);
    }
  }
}
