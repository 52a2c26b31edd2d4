/** The text of a rendered message: a subject on one line, a trimmed body. */
module MessageText {

  /** unicode.IsSpace */
  predicate IsSpace(c: char) {
    var n := c as int;
    || 0x09 <= n <= 0x0D || n == 0x20 || n == 0x85 || n == 0xA0 || n == 0x1680
    || 0x2000 <= n <= 0x200A || n == 0x2028 || n == 0x2029 || n == 0x202F || n == 0x205F || n == 0x3000
  }

  /** Of ASCII: tab, line feed, vertical tab, form feed, carriage return, space. */
  lemma AsciiSpaces(c: char)
    requires c as int < 0x80
    ensures IsSpace(c) <==> c in [9 as char, '\n', 11 as char, 12 as char, '\r', ' ']
  {
  }

  predicate SpaceFree(s: string) {
    forall i :: 0 <= i < |s| ==> !IsSpace(s[i])
  }

  predicate AllSpace(s: string) {
    forall i :: 0 <= i < |s| ==> IsSpace(s[i])
  }

  predicate Words(ws: seq<string>) {
    forall i :: 0 <= i < |ws| ==> ws[i] != "" && SpaceFree(ws[i])
  }

  /** The leading run of characters that are not space. */
  function FirstWord(s: string): (n: nat)
    ensures n <= |s| && SpaceFree(s[..n])
    ensures n < |s| ==> IsSpace(s[n])
  {
    if s == "" || IsSpace(s[0]) then 0
    else
      assert forall i :: 0 < i <= FirstWord(s[1..]) ==> s[i] == s[1..][i - 1];
      1 + FirstWord(s[1..])
  }

  /** strings.Fields */
  function Fields(s: string): (ws: seq<string>)
    ensures Words(ws)
    ensures ws == [] <==> AllSpace(s)
    decreases |s|
  {
    if s == "" then []
    else if IsSpace(s[0]) then
      assert forall i :: 0 < i < |s| ==> s[i] == s[1..][i - 1];
      Fields(s[1..])
    else
      [s[..FirstWord(s)]] + Fields(s[FirstWord(s)..])
  }

  /** strings.Join(ws, " ") */
  function Join(ws: seq<string>): string {
    if ws == [] then ""
    else if |ws| == 1 then ws[0]
    else ws[0] + " " + Join(ws[1..])
  }

  function OneLine(s: string): string {
    Join(Fields(s))
  }

  /** White space at this place is one space between two words. */
  predicate TidyAt(s: string, i: nat)
    requires i < |s|
  {
    IsSpace(s[i]) ==> s[i] == ' ' && 0 < i < |s| - 1 && !IsSpace(s[i - 1]) && !IsSpace(s[i + 1])
  }

  predicate IsOneLine(s: string) {
    forall i :: 0 <= i < |s| ==> TidyAt(s, i)
  }

  lemma FirstWordIs(w: string, rest: string)
    requires SpaceFree(w) && (rest != "" ==> IsSpace(rest[0]))
    ensures FirstWord(w + rest) == |w|
  {
    var s := w + rest;
    assert forall i :: 0 <= i < |w| ==> s[i] == w[i];
    assert rest != "" ==> s[|w|] == rest[0];
    assert forall i :: 0 <= i < FirstWord(s) ==> s[i] == s[..FirstWord(s)][i];
  }

  /** Joining words and splitting again gives the words. */
  lemma {:induction false} FieldsOfJoin(ws: seq<string>)
    requires Words(ws)
    ensures Fields(Join(ws)) == ws
  {
    if ws != [] {
      var tail := ws[1..];
      FieldsOfJoin(tail);
      var rest := if tail == [] then "" else " " + Join(tail);
      assert Join(ws) == ws[0] + rest;
      FirstWordIs(ws[0], rest);
      assert Join(ws)[0] == ws[0][0] && Join(ws)[..|ws[0]|] == ws[0] && Join(ws)[|ws[0]|..] == rest;
      assert tail != [] ==> rest[1..] == Join(tail);
      assert Fields(rest) == tail;
    }
  }

  lemma {:induction false} JoinIsOneLine(ws: seq<string>)
    requires Words(ws)
    ensures IsOneLine(Join(ws))
    ensures ws != [] ==> Join(ws) != "" && !IsSpace(Join(ws)[0])
  {
    if |ws| > 1 {
      var w, rest := ws[0], Join(ws[1..]);
      JoinIsOneLine(ws[1..]);
      var s := w + " " + rest;
      forall i | 0 <= i < |s|
        ensures TidyAt(s, i)
      {
        if i > |w| {
          assert TidyAt(rest, i - |w| - 1);
        }
      }
    }
  }

  /** One line is some words, joined. */
  lemma {:induction false} OneLineIsWords(s: string) returns (ws: seq<string>)
    requires IsOneLine(s)
    ensures Words(ws) && Join(ws) == s
    decreases |s|
  {
    var n := FirstWord(s);
    if s == "" {
      ws := [];
    } else if n == |s| {
      assert s[..n] == s;
      ws := [s];
    } else {
      assert TidyAt(s, 0);
      OneLineTail(s, n);
      var rest := OneLineIsWords(s[n..][1..]);
      ws := [s[..n]] + rest;
      JoinTwo(s[..n], rest);
      assert s == s[..n] + s[n..];
    }
  }

  lemma JoinTwo(w: string, ws: seq<string>)
    requires ws != []
    ensures Join([w] + ws) == w + " " + Join(ws)
  {
    assert ([w] + ws)[1..] == ws;
  }

  lemma OneLineTail(s: string, n: nat)
    requires IsOneLine(s) && n < |s| && IsSpace(s[n])
    ensures var tail := s[n..][1..];
            s[n..] == " " + tail && IsOneLine(tail) && tail != "" && !IsSpace(tail[0])
  {
    var tail := s[n..][1..];
    assert TidyAt(s, n);
    forall i | 0 <= i < |tail|
      ensures TidyAt(tail, i)
    {
      assert TidyAt(s, n + 1 + i);
    }
  }

  /** The subject of a message is always one line, keeps every word of what the
      template wrote, changes nothing that already was one line, and is empty
      only when there was no word at all. */
  lemma OneLineKeepsTheWords(s: string)
    ensures IsOneLine(OneLine(s)) && Fields(OneLine(s)) == Fields(s)
    ensures OneLine(s) == s <==> IsOneLine(s)
    ensures OneLine(s) == "" <==> AllSpace(s)
    ensures '\n' !in OneLine(s) && '\r' !in OneLine(s)
  {
    FieldsOfJoin(Fields(s));
    JoinIsOneLine(Fields(s));
    NoBreaks(OneLine(s));
    if IsOneLine(s) {
      var ws := OneLineIsWords(s);
      FieldsOfJoin(ws);
    }
  }

  lemma NoBreaks(s: string)
    requires IsOneLine(s)
    ensures '\n' !in s && '\r' !in s
  {
    forall i | 0 <= i < |s|
      ensures s[i] != '\n' && s[i] != '\r'
    {
      assert TidyAt(s, i);
    }
  }

  function TrimLeft(s: string): string {
    if s != "" && IsSpace(s[0]) then TrimLeft(s[1..]) else s
  }

  function TrimRight(s: string): string {
    if s != "" && IsSpace(s[|s| - 1]) then TrimRight(s[..|s| - 1]) else s
  }

  /** strings.TrimSpace */
  function TrimSpace(s: string): string {
    TrimRight(TrimLeft(s))
  }

  lemma {:induction false} TrimLeftTrims(s: string) returns (front: string)
    ensures s == front + TrimLeft(s) && AllSpace(front)
    ensures TrimLeft(s) != "" ==> !IsSpace(TrimLeft(s)[0])
  {
    front := "";
    if s != "" && IsSpace(s[0]) {
      var rest := TrimLeftTrims(s[1..]);
      front := [s[0]] + rest;
    }
  }

  lemma {:induction false} TrimRightTrims(s: string) returns (back: string)
    ensures s == TrimRight(s) + back && AllSpace(back)
    ensures TrimRight(s) != "" ==> !IsSpace(TrimRight(s)[|TrimRight(s)| - 1])
  {
    back := "";
    if s != "" && IsSpace(s[|s| - 1]) {
      var rest := TrimRightTrims(s[..|s| - 1]);
      back := rest + [s[|s| - 1]];
    }
  }

  /** Only white space is trimmed, and none is left at either end. */
  lemma TrimSpaceTrims(s: string) returns (front: string, back: string)
    ensures s == front + TrimSpace(s) + back && AllSpace(front) && AllSpace(back)
    ensures var r := TrimSpace(s); r != "" ==> !IsSpace(r[0]) && !IsSpace(r[|r| - 1])
  {
    front := TrimLeftTrims(s);
    back := TrimRightTrims(TrimLeft(s));
    var left, r := TrimLeft(s), TrimSpace(s);
    assert r != "" ==> left[0] == r[0];
  }
}
