/**
 The smart socket: it collects a length-prefixed service request from however many packets it
 comes in, and finds the serial number and the command in a host-serial request. Bytes are chars.
 */
module SmartSocket {
  import opened CStrings
  import opened Hex
  import opened StreamSocket
  import opened Wrappers

  // ---- hexadecimal ----

  const INVALID: nat := 0xffff_ffff

  /** unhex. */
  method UnhexLoop(s: string) returns (n: nat)
    ensures n == if Unhex(s).Some? then Unhex(s).value else INVALID
  {
    n := 0;
    for i := 0 to |s|
      invariant Unhex(s[..i]) == Some(n)
    {
      assert s[..i + 1][..i] == s[..i];
      var c := Nibble(s[i]);
      if c.None? {
        UnhexBad(s, i);
        return INVALID;
      }
      n := 16 * n + c.value;
    }
    assert s[..|s|] == s;
  }

  // ---- framing ----

  const MAX_SERVICE: nat := 1024

  datatype Verdict = Wait | Fail | Dispatch(service: string)

  /** What all bytes received so far amount to. */
  function Decide(s: string): Verdict
  {
    if |s| < 4 then Wait
    else
      var n := Unhex(s[..4]);
      if n.None? || n.value < 1 || n.value > MAX_SERVICE then Fail
      else if n.value + 4 > |s| then Wait
      else Dispatch(s[4..4 + n.value])
  }

  class Framer {
    var pkt: string    // the data of pkt_first, or nothing

    constructor ()
      ensures pkt == ""
    {
      pkt := "";
    }

    /** smart_socket_enqueue, up to what it does with the request. */
    method Enqueue(data: string) returns (v: Verdict)
      requires |pkt| <= MAX_PAYLOAD && |data| <= MAX_PAYLOAD
      modifies this
      ensures if |old(pkt)| + |data| > MAX_PAYLOAD then v == Fail && pkt == old(pkt)
              else pkt == old(pkt) + data && v == Decide(pkt)
    {
      if pkt == "" {
        pkt := data;
        assert data == old(pkt) + data;
      } else {
        if |pkt| + |data| > MAX_PAYLOAD {
          return Fail;
        }
        pkt := pkt + data;
      }
      if |pkt| < 4 {
        return Wait;
      }
      var len := UnhexLoop(pkt[..4]);
      if len < 1 || len > MAX_SERVICE {
        return Fail;
      }
      if len + 4 > |pkt| {
        return Wait;
      }
      return Dispatch(pkt[4..4 + len]);
    }

    /** Feeding packets until the framer decides. The verdict and the packet it falls on depend only
        on the bytes, not on how they are divided. */
    method Feed(packets: seq<string>) returns (v: Verdict, used: nat)
      requires pkt == "" && |Joined(packets)| <= MAX_PAYLOAD
      modifies this
      ensures used <= |packets| && pkt == Joined(packets[..used])
      ensures used > 0 ==> v == Decide(Joined(packets[..used]))
      ensures v == Wait ==> used == |packets|
      ensures forall k :: 0 < k < used ==> Decide(Joined(packets[..k])) == Wait
    {
      v, used := Wait, 0;
      while used < |packets| && v == Wait
        invariant used <= |packets| && pkt == Joined(packets[..used])
        invariant if used == 0 then v == Wait else v == Decide(Joined(packets[..used]))
        invariant forall k :: 0 < k < used ==> Decide(Joined(packets[..k])) == Wait
      {
        JoinedStep(packets, used);
        JoinedPrefix(packets, used + 1);
        v := Enqueue(packets[used]);
        used := used + 1;
      }
      assert packets[..|packets|] == packets;
    }
  }

  lemma JoinedStep(packets: seq<string>, k: nat)
    requires k < |packets|
    ensures Joined(packets[..k + 1]) == Joined(packets[..k]) + packets[k]
  {
    assert packets[..k + 1] == packets[..k] + [packets[k]];
    JoinedAppend(packets[..k], [packets[k]]);
    assert Joined([packets[k]]) == packets[k] + Joined([packets[k]][1..]);
  }

  lemma JoinedPrefix(packets: seq<string>, k: nat)
    requires k <= |packets|
    ensures Joined(packets) == Joined(packets[..k]) + Joined(packets[k..])
  {
    assert packets == packets[..k] + packets[k..];
    JoinedAppend(packets[..k], packets[k..]);
  }

  function Request(service: string): string
    requires |service| <= MAX_SERVICE
  {
    Hexed(|service|, 4) + service
  }

  /** The framer waits for every proper beginning of a request and dispatches the whole of it. */
  lemma DecideRequest(service: string, n: nat)
    requires 1 <= |service| <= MAX_SERVICE && n <= |Request(service)|
    ensures Decide(Request(service)[..n]) == if n == |Request(service)| then Dispatch(service) else Wait
  {
    var s := Request(service);
    Widths();
    UnhexHexed(|service|, 4);
    if n >= 4 {
      assert s[..n][..4] == Hexed(|service|, 4);
      if n == |s| {
        assert s[..n] == s && s[4..4 + |service|] == service;
      }
    }
  }

  /** However a request is divided into nonempty packets, none but the last is decided on, and the
      last dispatches the service. */
  lemma OneDispatch(packets: seq<string>, service: string, k: nat)
    requires 1 <= |service| <= MAX_SERVICE && Joined(packets) == Request(service)
    requires forall i :: 0 <= i < |packets| ==> packets[i] != ""
    requires k <= |packets|
    ensures Decide(Joined(packets[..k])) == if k == |packets| then Dispatch(service) else Wait
  {
    var s := Request(service);
    JoinedPrefix(packets, k);
    var n := |Joined(packets[..k])|;
    assert s[..n] == Joined(packets[..k]);
    if k < |packets| {
      assert packets[k..][0] == packets[k];
      assert Joined(packets[k..]) != "";
    } else {
      assert packets[k..] == [];
    }
    DecideRequest(service, n);
  }

  /** The bytes begin with a service of an allowed length behind that length in hexadecimal. */
  predicate Carries(s: string, service: string)
  {
    && 1 <= |service| <= 1024 && 4 + |service| <= |s|
    && Unhex(s[..4]) == Some(|service|) && s[4..4 + |service|] == service
  }

  lemma CarriesLength(s: string, more: string, service: string)
    requires |s| >= 4 && Carries(s + more, service)
    ensures Unhex(s[..4]) == Some(|service|)
  {
    assert (s + more)[..4] == s[..4];
  }

  /** Enough bytes behind an allowed length carry a service. */
  lemma Completed(s: string) returns (more: string, service: string)
    requires |s| >= 4 && Unhex(s[..4]).Some? && 1 <= Unhex(s[..4]).value <= 1024
    ensures Carries(s + more, service)
  {
    var n := Unhex(s[..4]).value;
    more := seq(n, _ => 'x');
    assert (s + more)[..4] == s[..4];
    service := (s + more)[4..4 + n];
  }

  /** For all bytes: the service is dispatched exactly if it is there, and the request fails exactly
      when its length is there and nothing that may follow can make it a request. */
  lemma DecideExactly(s: string)
    ensures forall service :: Decide(s) == Dispatch(service) <==> Carries(s, service)
    ensures Decide(s) == Fail <==> |s| >= 4 && forall more, service :: !Carries(s + more, service)
  {
    if |s| >= 4 {
      var n := Unhex(s[..4]);
      if n.Some? && 1 <= n.value <= 1024 {
        var more, service := Completed(s);
      } else {
        forall more, service ensures !Carries(s + more, service) {
          if Carries(s + more, service) {
            CarriesLength(s, more, service);
          }
        }
      }
    }
  }

  // ---- addressing ----

  function IndexOf(s: string, c: char, from: nat): (r: Option<nat>)
    ensures r.Some? ==> from <= r.value < |s| && s[r.value] == c && c !in s[from..r.value]
    ensures r.None? ==> forall i :: from <= i < |s| ==> s[i] != c
    decreases |s| - from
  {
    if from >= |s| then None else if s[from] == c then Some(from) else IndexOf(s, c, from + 1)
  }

  predicate IsDigit(c: char)
  {
    '0' <= c <= '9'
  }

  /** The end of the run of digits that starts at i. */
  function DigitsEnd(s: string, i: nat): (r: nat)
    requires i <= |s|
    ensures i <= r <= |s| && (r < |s| ==> !IsDigit(s[r])) && forall k :: i <= k < r ==> IsDigit(s[k])
    decreases |s| - i
  {
    if i < |s| && IsDigit(s[i]) then DigitsEnd(s, i + 1) else i
  }

  const PREFIXES := ["usb:", "product:", "model:", "device:"]

  predicate Prefixed(s: string, i: nat)
    requires i < |PREFIXES|
  {
    PREFIXES[i] <= s
  }

  /** Where the serial number at the front of a request ends, if it does. */
  function SerialEnd(s: string): (r: Option<nat>)
    ensures r.Some? ==> r.value < |s| && s[r.value] == ':'
  {
    if Prefixed(s, 0) then IndexOf(s, ':', 4)
    else if Prefixed(s, 1) then IndexOf(s, ':', 8)
    else if Prefixed(s, 2) then IndexOf(s, ':', 6)
    else if Prefixed(s, 3) then IndexOf(s, ':', 7)
    else
      var colon := IndexOf(s, ':', 0);
      if colon.None? then None
      else
        var end := DigitsEnd(s, colon.value + 1);
        if end > colon.value + 1 && end < |s| && s[end] == ':' then Some(end) else colon
  }

  /** skip_host_serial. */
  method SkipHostSerial(s: string) returns (r: Option<nat>)
    ensures r == SerialEnd(s)
  {
    for i := 0 to |PREFIXES|
      invariant forall k :: 0 <= k < i ==> !Prefixed(s, k)
    {
      if PREFIXES[i] <= s {
        r := IndexOf(s, ':', |PREFIXES[i]|);
        return;
      }
    }
    r := IndexOf(s, ':', 0);
    if r.None? {
      return;
    }
    var colon := r.value;
    if colon + 1 < |s| && IsDigit(s[colon + 1]) {
      var end := colon + 1;
      while end < |s| && IsDigit(s[end])
        invariant colon + 1 <= end <= |s| && DigitsEnd(s, end) == DigitsEnd(s, colon + 1)
      {
        end := end + 1;
      }
      if end < |s| && s[end] == ':' {
        r := Some(end);
      }
    }
  }

  predicate AllDigits(s: string)
  {
    forall k :: 0 <= k < |s| ==> IsDigit(s[k])
  }

  /** Whether a command starts with digits and a colon, so that it looks like the port of a serial
      number without one. */
  predicate LooksLikePort(cmd: string)
  {
    var n := DigitsEnd(cmd, 0);
    0 < n < |cmd| && cmd[n] == ':'
  }

  /** The serial numbers and commands that a request can carry: a known prefix with no further
      colon, host:port, or no colon at all; but not a bare prefix word. */
  predicate Addressable(serial: string, cmd: string)
  {
    if exists i :: 0 <= i < |PREFIXES| && Prefixed(serial, i) then
      exists i :: 0 <= i < |PREFIXES| && Prefixed(serial, i) && ':' !in serial[|PREFIXES[i]|..]
    else if serial + ":" in PREFIXES then false
    else if ':' in serial then
      var c := IndexOf(serial, ':', 0);
      c.Some? && c.value + 1 < |serial| && AllDigits(serial[c.value + 1..])
    else !LooksLikePort(cmd)
  }

  lemma {:induction false} IndexOfIs(s: string, c: char, from: nat, i: nat)
    requires from <= i < |s| && s[i] == c && c !in s[from..i]
    ensures IndexOf(s, c, from) == Some(i)
    decreases i - from
  {
    if from < i {
      assert s[from] == s[from..i][0];
      assert s[from + 1..i] == s[from..i][1..];
      IndexOfIs(s, c, from + 1, i);
    }
  }

  lemma {:induction false} DigitsEndIs(s: string, i: nat, n: nat)
    requires i <= n <= |s| && (n < |s| ==> !IsDigit(s[n])) && forall k :: i <= k < n ==> IsDigit(s[k])
    ensures DigitsEnd(s, i) == n
    decreases n - i
  {
    if i < n {
      DigitsEndIs(s, i + 1, n);
    }
  }

  /** A request is prefixed like its serial number, or the serial number is the bare word. */
  lemma RequestPrefix(serial: string, cmd: string, i: nat)
    requires i < |PREFIXES|
    ensures Prefixed(serial + ":" + cmd, i) <==> Prefixed(serial, i) || serial + ":" == PREFIXES[i]
  {
    var s, p := serial + ":" + cmd, PREFIXES[i];
    assert p[|p| - 1] == ':' && forall k :: 0 <= k < |p| - 1 ==> p[k] != ':';
    assert s[|serial|] == ':' && s[..|serial| + 1] == serial + ":" && s[..|serial|] == serial;
    if p <= s {
      assert |serial| >= |p| - 1;
      if |p| <= |serial| {
        assert p == s[..|p|] == serial[..|p|];
      } else {
        assert p == s[..|p|];
      }
    }
  }

  /** No two of the prefixes start alike. */
  lemma OnePrefix(s: string, i: nat, j: nat)
    requires i < |PREFIXES| && j < |PREFIXES| && Prefixed(s, i) && Prefixed(s, j)
    ensures i == j
  {
    assert PREFIXES[i][0] == s[0] == PREFIXES[j][0];
  }

  lemma PrefixedEnd(s: string, i: nat)
    requires i < |PREFIXES| && Prefixed(s, i)
    ensures SerialEnd(s) == IndexOf(s, ':', |PREFIXES[i]|)
  {
    forall j: nat | j < |PREFIXES| && Prefixed(s, j) ensures j == i {
      OnePrefix(s, i, j);
    }
  }

  lemma PrefixedSerial(serial: string, cmd: string, i: nat)
    requires i < |PREFIXES| && Prefixed(serial, i)
    ensures SerialEnd(serial + ":" + cmd) == Some(|serial|) <==> ':' !in serial[|PREFIXES[i]|..]
  {
    var s, n := serial + ":" + cmd, |PREFIXES[i]|;
    RequestPrefix(serial, cmd, i);
    PrefixedEnd(s, i);
    assert s[n..|serial|] == serial[n..];
    if ':' !in serial[n..] {
      IndexOfIs(s, ':', n, |serial|);
    }
  }

  lemma BareSerial(serial: string, cmd: string, i: nat)
    requires i < |PREFIXES| && serial + ":" == PREFIXES[i]
    ensures SerialEnd(serial + ":" + cmd) != Some(|serial|)
  {
    RequestPrefix(serial, cmd, i);
    PrefixedEnd(serial + ":" + cmd, i);
    assert |PREFIXES[i]| == |serial| + 1;
  }

  /** host:port is found exactly when the port is a number. */
  lemma PortSerial(serial: string, cmd: string, c: nat)
    requires c < |serial| && serial[c] == ':' && ':' !in serial[..c]
    requires forall i :: 0 <= i < |PREFIXES| ==> !Prefixed(serial + ":" + cmd, i)
    ensures SerialEnd(serial + ":" + cmd) == Some(|serial|) <==>
              c + 1 < |serial| && AllDigits(serial[c + 1..])
  {
    var s := serial + ":" + cmd;
    assert s[0..c] == serial[..c];
    IndexOfIs(s, ':', 0, c);
    var port := serial[c + 1..];
    assert forall k :: 0 <= k < |port| ==> port[k] == s[c + 1 + k];
    if c + 1 < |serial| && AllDigits(port) {
      forall k | c + 1 <= k < |serial| ensures IsDigit(s[k]) {
        assert s[k] == port[k - c - 1];
      }
      DigitsEndIs(s, c + 1, |serial|);
    }
  }

  /** A serial number without a colon is found unless the command looks like its port. */
  lemma PlainSerial(serial: string, cmd: string)
    requires ':' !in serial
    requires forall i :: 0 <= i < |PREFIXES| ==> !Prefixed(serial + ":" + cmd, i)
    ensures SerialEnd(serial + ":" + cmd) == Some(|serial|) <==> !LooksLikePort(cmd)
  {
    var s := serial + ":" + cmd;
    assert s[0..|serial|] == serial;
    IndexOfIs(s, ':', 0, |serial|);
    var n := DigitsEnd(cmd, 0);
    assert forall k :: 0 <= k < |cmd| ==> cmd[k] == s[|serial| + 1 + k];
    forall k | |serial| + 1 <= k < |serial| + 1 + n ensures IsDigit(s[k]) {
      assert s[k] == cmd[k - |serial| - 1];
    }
    DigitsEndIs(s, |serial| + 1, |serial| + 1 + n);
  }

  /** host-serial:<serial>:<cmd> is taken apart as it was put together exactly for addressable
      serial numbers and commands. */
  lemma SerialRecovered(serial: string, cmd: string)
    ensures SerialEnd(serial + ":" + cmd) == Some(|serial|) <==> Addressable(serial, cmd)
  {
    var s := serial + ":" + cmd;
    forall i: nat | i < |PREFIXES|
      ensures Prefixed(s, i) <==> Prefixed(serial, i) || serial + ":" == PREFIXES[i] {
      RequestPrefix(serial, cmd, i);
    }
    if i :| 0 <= i < |PREFIXES| && Prefixed(serial, i) {
      PrefixedSerial(serial, cmd, i);
      forall j: nat | j < |PREFIXES| && Prefixed(serial, j) ensures j == i {
        OnePrefix(serial, i, j);
      }
    } else if serial + ":" in PREFIXES {
      var i :| 0 <= i < |PREFIXES| && PREFIXES[i] == serial + ":";
      BareSerial(serial, cmd, i);
    } else if ':' in serial {
      var c := IndexOf(serial, ':', 0);
      assert serial[0..c.value] == serial[..c.value];
      PortSerial(serial, cmd, c.value);
    } else {
      PlainSerial(serial, cmd);
    }
  }

  /** A device called "usb" cannot be addressed: its name is taken for a prefix. */
  lemma UsbIsNotAddressable()
    ensures SerialEnd("usb" + ":" + "features") == None
  {
    BareSerial("usb", "features", 0);
    var s := "usb" + ":" + "features";
    assert s == "usb:features";
    assert IndexOf(s, ':', 4).None?;
  }

  // ---- host requests ----

  datatype Transport = AnyTransport | UsbTransport | LocalTransport

  /** A request to the host: which transport it is for, and the command. */
  datatype Host = NotHost | Host(kind: Transport, serial: Option<string>, cmd: string)

  /** format_host_command. */
  function Format(cmd: string, kind: Transport, serial: Option<string>): string
  {
    if serial.Some? then "host-serial:" + (serial.value + ":" + cmd)
    else match kind
      case UsbTransport => "host-usb:" + cmd
      case LocalTransport => "host-local:" + cmd
      case AnyTransport => "host:" + cmd
  }

  /** The host prefixes of smart_socket_enqueue. */
  function Parse(service: string): Host
  {
    if "host-serial:" <= service then
      var s := service[12..];
      match SerialEnd(s)
      case Some(end) => Host(AnyTransport, Some(s[..end]), s[end + 1..])
      case None => Host(AnyTransport, None, s)
    else if "host-usb:" <= service then Host(UsbTransport, None, service[9..])
    else if "host-local:" <= service then Host(LocalTransport, None, service[11..])
    else if "host:" <= service then Host(AnyTransport, None, service[5..])
    else NotHost
  }

  /** The server recovers what the client asked for; a serial number, exactly if addressable. */
  lemma ParseFormat(cmd: string, kind: Transport, serial: Option<string>)
    ensures serial.None? ==> Parse(Format(cmd, kind, serial)) == Host(kind, None, cmd)
    ensures serial.Some? ==>
              (Parse(Format(cmd, kind, serial)) == Host(AnyTransport, serial, cmd) <==> Addressable(serial.value, cmd))
  {
    var f := Format(cmd, kind, serial);
    match serial {
      case None =>
        match kind {
          case UsbTransport => assert f[..9] == "host-usb:" && f[9..] == cmd && f[5] == 'u';
          case LocalTransport => assert f[..11] == "host-local:" && f[11..] == cmd && f[5] == 'l';
          case AnyTransport => assert f[..5] == "host:" && f[5..] == cmd && f[4] == ':';
        }
      case Some(name) =>
        var s := name + ":" + cmd;
        assert f[..12] == "host-serial:" && f[12..] == s;
        SerialRecovered(name, cmd);
        if SerialEnd(s) == Some(|name|) {
          assert s[..|name|] == name && s[|name| + 1..] == cmd;
        }
    }
  }
}
