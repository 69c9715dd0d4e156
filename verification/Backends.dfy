/** The "service:port" text both mappers produce, and the reader that shows it loses nothing. */
module Backends {
  import opened Kube
  import opened Decimal

  datatype ServicePort = ServicePort(name: string, number: int32)

  /** The port a backend refers to: a name wins over a number, and number zero means none. */
  datatype Port = Unset | Named(name: string) | Numbered(number: int)

  function PortOf(port: ServicePort): Port {
    if port.name != "" then Named(port.name)
    else if port.number != 0 then Numbered(port.number)
    else Unset
  }

  /** What `portString` returns. */
  function PortText(port: ServicePort): string {
    if port.name != "" then port.name
    else if port.number != 0 then Printed(port.number)
    else ""
  }

  method PortString(port: ServicePort) returns (text: string)
    ensures text == PortText(port)
    ensures port.name != "" ==> text == port.name
    ensures port.name == "" && port.number == 0 ==> text == ""
    ensures port.name == "" && port.number != 0 ==> Parse(text) == Some(port.number as int)
  {
    PrintParse(port.number);
    if port.name != "" {
      return port.name;
    }
    if port.number != 0 {
      text := IntToStr(port.number);
      return;
    }
    return "";
  }

  predicate Lacks(s: string, c: char) { forall k | 0 <= k < |s| :: s[k] != c }

  function FirstIndex(s: string, c: char): (i: nat)
    ensures i <= |s| && forall k | 0 <= k < i :: s[k] != c
    ensures i < |s| ==> s[i] == c
  {
    if s == "" || s[0] == c then 0 else
      var rest := FirstIndex(s[1..], c);
      assert forall k | 0 < k <= rest :: s[k] == s[1..][k - 1];
      1 + rest
  }

  lemma FirstIndexIs(s: string, c: char, i: nat)
    requires i <= |s| && (forall k | 0 <= k < i :: s[k] != c) && (i < |s| ==> s[i] == c)
    ensures FirstIndex(s, c) == i
  {
  }

  /** Cutting a concatenation where it was joined. */
  lemma CutJoined(a: string, c: char, b: string)
    ensures var s := a + [c] + b; s[..|a|] == a && s[|a|] == c && s[|a| + 1..] == b
  {
  }

  /** Reads a port: nothing, a numeral, or a name. */
  function ReadPort(text: string): Port {
    if text == "" then Unset else match Parse(text) case Some(n) => Numbered(n) case None => Named(text)
  }

  /** Reads a backend: the service name up to the first colon, then the port. */
  function ReadBackend(text: string): (string, Port) {
    var colon := FirstIndex(text, ':');
    if colon == |text| then (text, Unset) else (text[..colon], ReadPort(text[colon + 1..]))
  }

  /** The printed port reads back to the port in force exactly when the port name is not itself a numeral. */
  lemma PortReadsBack(port: ServicePort)
    ensures ReadPort(PortText(port)) == PortOf(port) <==> Parse(port.name) == None
  {
    PrintParse(port.number);
    PrintedIsCanonical(port.number);
  }

  /** A service name as Kubernetes admits it. */
  predicate ColonFree(name: string) { Lacks(name, ':') }

  lemma FirstJoined(a: string, c: char, b: string)
    requires Lacks(a, c)
    ensures FirstIndex(a, c) == |a| && FirstIndex(a + [c] + b, c) == |a|
  {
    FirstIndexIs(a, c, |a|);
    FirstIndexIs(a + [c] + b, c, |a|);
  }

  /** A name is read up to its own end exactly when it has no colon; then the rest is the port. */
  lemma ReadsName(name: string, rest: string)
    ensures ReadBackend(name + ":" + rest).0 == name <==> ColonFree(name)
    ensures ColonFree(name) ==> ReadBackend(name + ":" + rest).1 == ReadPort(rest)
    ensures ReadBackend(name) == (name, Unset) <==> ColonFree(name)
  {
    CutJoined(name, ':', rest);
    if ColonFree(name) {
      FirstJoined(name, ':', rest);
    }
  }

  /**
   * An Ingress backend reads back to its service name and the port in force exactly when the service name has
   * no colon and the port name is not a numeral.
   */
  lemma IngressBackendReadsBack(name: string, port: ServicePort)
    ensures ReadBackend(name + ":" + PortText(port)) == (name, PortOf(port))
      <==> ColonFree(name) && Parse(port.name) == None
  {
    ReadsName(name, PortText(port));
    PortReadsBack(port);
  }

  /** An HTTPRoute backend reads back to its reference, with or without a port, if its name has no colon. */
  lemma RouteBackendReadsBack(name: string, port: int32)
    ensures ReadBackend(name) == (name, Unset) <==> ColonFree(name)
    ensures ReadBackend(name + ":" + Printed(port)) == (name, Numbered(port)) <==> ColonFree(name)
  {
    ReadsName(name, Printed(port));
    PrintParse(port);
    PrintedIsCanonical(port);
  }
}
