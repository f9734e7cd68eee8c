/** The part of the POSIX shell grammar that reads a rendered header: words with quoting by
    backslash and single quotes (sections 2.2.1 and 2.2.2 of the Shell Command Language volume
    of POSIX.1-2017), comments, empty lines, and `export NAME=word`. */
module Shell {
  import opened Wrappers

  datatype Word = Word(value: string, rest: string)

  predicate IsBreak(c: char) {
    c in " \t\n;&|<>()"
  }

  /** Characters whose unquoted meaning this reader does not cover. */
  predicate IsSpecial(c: char) {
    c in "\"$`*?[~"
  }

  function Prepend(c: char, w: Option<Word>): Option<Word> {
    if w.Some? then Some(Word([c] + w.value.value, w.value.rest)) else None
  }

  /** Reads one word, removing quotes; `quoted` says that a single quote is open. */
  function ReadWord(s: string, quoted: bool): Option<Word>
    decreases |s|
  {
    if s == "" then if quoted then None else Some(Word("", ""))
    else if s[0] == '\'' then ReadWord(s[1..], !quoted)
    else if quoted then Prepend(s[0], ReadWord(s[1..], true))
    else if s[0] == '\\' then
      if |s| == 1 then None
      else if s[1] == '\n' then ReadWord(s[2..], false)
      else Prepend(s[1], ReadWord(s[2..], false))
    else if IsBreak(s[0]) then Some(Word("", s))
    else if IsSpecial(s[0]) then None
    else Prepend(s[0], ReadWord(s[1..], false))
  }

  lemma ReadQuoteMark(t: string, quoted: bool)
    ensures ReadWord("'" + t, quoted) == ReadWord(t, !quoted)
  {
    assert ("'" + t)[1..] == t;
  }

  lemma ReadQuotedChar(c: char, t: string)
    requires c != '\''
    ensures ReadWord([c] + t, true) == Prepend(c, ReadWord(t, true))
  {
    assert ([c] + t)[1..] == t;
  }

  lemma ReadEscapedChar(c: char, t: string)
    requires c != '\n'
    ensures ReadWord(['\\', c] + t, false) == Prepend(c, ReadWord(t, false))
  {
    assert (['\\', c] + t)[2..] == t;
  }

  predicate NameChar(c: char) {
    'A' <= c <= 'Z' || 'a' <= c <= 'z' || '0' <= c <= '9' || c == '_'
  }

  predicate ValidName(s: string) {
    s != "" && !('0' <= s[0] <= '9') && forall i | 0 <= i < |s| :: NameChar(s[i])
  }

  function NameLength(s: string): (n: nat)
    ensures n <= |s|
    ensures n < |s| ==> !NameChar(s[n])
    ensures forall i | 0 <= i < n :: NameChar(s[i])
  {
    if s == "" || !NameChar(s[0]) then 0 else 1 + NameLength(s[1..])
  }

  function LineLength(s: string): (n: nat)
    ensures n <= |s|
    ensures n < |s| ==> s[n] == '\n'
    ensures forall i | 0 <= i < n :: s[i] != '\n'
  {
    if s == "" || s[0] == '\n' then 0 else 1 + LineLength(s[1..])
  }

  type Env = map<string, string>

  const EXPORT: string := "export "

  /** Reads one line-ended item: nothing, a comment, or an export. */
  function ReadItem(s: string, env: Env): Option<(string, Env)> {
    if s == "" then None
    else if s[0] == '\n' then Some((s[1..], env))
    else if s[0] == '#' then
      var n := LineLength(s);
      if n == |s| then None else Some((s[n + 1..], env))
    else if EXPORT <= s then ReadExport(s[|EXPORT|..], env)
    else None
  }

  function ReadExport(s: string, env: Env): Option<(string, Env)> {
    var n := NameLength(s);
    if n == |s| || !ValidName(s[..n]) || s[n] != '=' then None
    else match ReadWord(s[n + 1..], false)
      case None => None
      case Some(w) =>
        if w.rest == "" || w.rest[0] != '\n' then None
        else Some((w.rest[1..], env[s[..n] := w.value]))
  }

  /** Reads `n` items one after the other. */
  function ReadItems(n: nat, s: string, env: Env): Option<(string, Env)> {
    if n == 0 then Some((s, env))
    else match ReadItems(n - 1, s, env)
      case None => None
      case Some((rest, env')) => ReadItem(rest, env')
  }
}
