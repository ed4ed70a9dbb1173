/** The value of one IRC message and its printer. */
module IRCMessages {

  datatype IRCMessage = IRCMessage(
    servername: string,
    user: string,
    nick: string,
    host: string,
    command: string,
    params: seq<string>)

  const BLANK: IRCMessage := IRCMessage("", "", "", "", "", [])

  /** The message carries a prefix that the printer writes. */
  predicate Prefixed(m: IRCMessage) {
    m.servername != "" || m.nick != ""
  }

  function PrefixText(m: IRCMessage): string {
    if m.servername != "" then
      ":" + m.servername + " "
    else if m.nick != "" then
      ":" + m.nick
      + (if m.user != "" then "!" + m.user else "")
      + (if m.host != "" then "@" + m.host else "")
      + " "
    else
      ""
  }

  function MiddlesText(ps: seq<string>): string {
    if ps == [] then "" else " " + ps[0] + MiddlesText(ps[1..])
  }

  function ParamsText(ps: seq<string>): string {
    if ps == [] then "" else MiddlesText(ps[..|ps| - 1]) + " :" + ps[|ps| - 1]
  }

  /** What the printer produces, read from left to right. */
  function Text(m: IRCMessage, stripCRLF: bool := false): string {
    PrefixText(m) + m.command + ParamsText(m.params) + (if stripCRLF then "" else "\r\n")
  }

  lemma Assoc(a: string, b: string, c: string)
    ensures (a + b) + c == a + (b + c)
  {
  }

  lemma {:induction false} MiddlesAppend(ps: seq<string>, p: string)
    ensures MiddlesText(ps + [p]) == MiddlesText(ps) + " " + p
  {
    if ps == [] {
    } else {
      MiddlesAppend(ps[1..], p);
      assert (ps + [p])[1..] == ps[1..] + [p];
    }
  }

  /** The printer as the program runs it: one stream, appended to step by step. */
  method ToString(m: IRCMessage, stripCRLF: bool) returns (stream: string)
    ensures stream == Text(m, stripCRLF)
  {
    stream := PutPrefix(m);
    stream := stream + m.command;
    var params := PutParams(m.params);
    stream := stream + params;
    if !stripCRLF {
      stream := stream + "\r\n";
    }
  }

  method PutPrefix(m: IRCMessage) returns (stream: string)
    ensures stream == PrefixText(m)
  {
    stream := "";
    if m.servername == "" && m.nick != "" {
      stream := ":" + m.nick;
      if m.user != "" { stream := stream + ("!" + m.user); }
      if m.host != "" { stream := stream + ("@" + m.host); }
      stream := stream + " ";
    } else if m.servername != "" {
      stream := ":" + m.servername + " ";
    }
  }

  method PutParams(params: seq<string>) returns (stream: string)
    ensures stream == ParamsText(params)
  {
    stream := "";
    if params != [] {
      var n := |params| - 1;
      for i := 0 to n
        invariant stream == MiddlesText(params[..i])
      {
        stream := stream + " " + params[i];
        MiddlesAppend(params[..i], params[i]);
        assert params[..i + 1] == params[..i] + [params[i]];
      }
      stream := stream + " :" + params[n];
    }
  }
}
