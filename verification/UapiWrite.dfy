/** writeConfig, checkLineValues and the request of configureDevice
    (internal/wguser/configure.go). */
module UapiWrite {
  import opened Types
  import opened Text
  import opened UapiLines
  import opened UapiParse

  // ----- the lines of a configuration

  function IntLine(key: string, v: Option<int>): seq<Line> {
    if v.Some? then [Line(key, PrintInt(v.value))] else []
  }

  function TextLine(key: string, v: Option<string>): seq<Line> {
    if v.Some? then [Line(key, v.value)] else []
  }

  function KeyLine(key: string, v: Option<Key>): seq<Line> {
    if v.Some? then [Line(key, HexEncode(v.value))] else []
  }

  function FlagLine(key: string, b: bool): seq<Line> {
    if b then [Line(key, "true")] else []
  }

  function BasicLines(cfg: Config): seq<Line> {
    KeyLine("private_key", cfg.privateKey) + IntLine("listen_port", cfg.listenPort) + IntLine("fwmark", cfg.firewallMark)
  }

  function JunkLines(cfg: Config): seq<Line> {
    IntLine("jc", cfg.jc) + IntLine("jmin", cfg.jmin) + IntLine("jmax", cfg.jmax)
  }

  function PaddingLines(cfg: Config): seq<Line> {
    IntLine("s1", cfg.s1) + IntLine("s2", cfg.s2) + IntLine("s3", cfg.s3) + IntLine("s4", cfg.s4)
  }

  function HeaderLines(cfg: Config): seq<Line> {
    TextLine("h1", cfg.h1) + TextLine("h2", cfg.h2) + TextLine("h3", cfg.h3) + TextLine("h4", cfg.h4)
  }

  function SpecLines(cfg: Config): seq<Line> {
    TextLine("i1", cfg.i1) + TextLine("i2", cfg.i2) + TextLine("i3", cfg.i3)
    + TextLine("i4", cfg.i4) + TextLine("i5", cfg.i5)
  }

  /** Keepalive in whole seconds. */
  function Seconds(d: Option<int>): Option<int> {
    if d.Some? then Some(WholeSeconds(d.value)) else None
  }

  function EndpointLine(t: Host, e: Option<UDPAddr>): seq<Line> {
    if e.Some? then [Line("endpoint", t.printAddr(e.value))] else []
  }

  function AllowedLines(t: Host, ips: seq<IPNet>): seq<Line> {
    if ips == [] then [] else [Line("allowed_ip", t.printCIDR(ips[0]))] + AllowedLines(t, ips[1..])
  }

  function PeerKeyLines(p: PeerConfig): seq<Line> {
    [Line("public_key", HexEncode(p.publicKey))]
    + FlagLine("remove", p.remove) + FlagLine("update_only", p.updateOnly)
    + KeyLine("preshared_key", p.presharedKey)
  }

  function PeerSettingLines(t: Host, p: PeerConfig): seq<Line> {
    EndpointLine(t, p.endpoint)
    + IntLine("persistent_keepalive_interval", Seconds(p.keepalive))
    + FlagLine("replace_allowed_ips", p.replaceAllowedIPs)
  }

  function PeerLines(t: Host, p: PeerConfig): seq<Line> {
    PeerKeyLines(p) + PeerSettingLines(t, p) + AllowedLines(t, p.allowedIPs)
  }

  function PeersLines(t: Host, ps: seq<PeerConfig>): seq<Line> {
    if ps == [] then [] else PeerLines(t, ps[0]) + PeersLines(t, ps[1..])
  }

  function DeviceLines(cfg: Config): seq<Line> {
    BasicLines(cfg) + JunkLines(cfg) + PaddingLines(cfg) + HeaderLines(cfg) + SpecLines(cfg)
    + FlagLine("replace_peers", cfg.replacePeers)
  }

  function ConfigLines(t: Host, cfg: Config): seq<Line> {
    [Line("set", "1")] + DeviceLines(cfg) + PeersLines(t, cfg.peers)
  }

  /** The whole request. */
  function Request(t: Host, cfg: Config): string {
    Render(ConfigLines(t, cfg)) + "\n"
  }

  // ----- the writer

  /** The request being written, with the lines it consists of. */
  class Buffer {
    var text: string
    ghost var lines: seq<Line>

    ghost predicate Valid()
      reads this
    {
      text == Render(lines)
    }

    constructor ()
      ensures Valid() && lines == []
    {
      text, lines := "", [];
    }

    method Write(key: string, value: string)
      requires Valid()
      modifies this
      ensures Valid() && lines == old(lines) + [Line(key, value)]
    {
      hide Render;
      RenderAppend(lines, [Line(key, value)]);
      RenderOne(Line(key, value));
      text := text + key + "=" + value + "\n";
      lines := lines + [Line(key, value)];
    }

    method WriteInt(key: string, v: Option<int>)
      requires Valid()
      modifies this
      ensures Valid() && lines == old(lines) + IntLine(key, v)
    {
      if v.Some? {
        Write(key, PrintInt(v.value));
      }
    }

    method WriteText(key: string, v: Option<string>)
      requires Valid()
      modifies this
      ensures Valid() && lines == old(lines) + TextLine(key, v)
    {
      if v.Some? {
        Write(key, v.value);
      }
    }

    method WriteKey(key: string, v: Option<Key>)
      requires Valid()
      modifies this
      ensures Valid() && lines == old(lines) + KeyLine(key, v)
    {
      if v.Some? {
        Write(key, HexEncode(v.value));
      }
    }

    method WriteFlag(key: string, b: bool)
      requires Valid()
      modifies this
      ensures Valid() && lines == old(lines) + FlagLine(key, b)
    {
      if b {
        Write(key, "true");
      }
    }

    method WriteParameters(cfg: Config)
      requires Valid()
      modifies this
      ensures Valid()
      ensures lines == old(lines) + (JunkLines(cfg) + PaddingLines(cfg) + HeaderLines(cfg) + SpecLines(cfg))
    {
      hide IntLine, TextLine, Render;
      WriteInt("jc", cfg.jc);
      WriteInt("jmin", cfg.jmin);
      WriteInt("jmax", cfg.jmax);
      assert lines == old(lines) + JunkLines(cfg);
      WritePaddings(cfg);
      WriteHeaders(cfg);
      WriteSpecs(cfg);
    }

    method WritePaddings(cfg: Config)
      requires Valid()
      modifies this
      ensures Valid() && lines == old(lines) + PaddingLines(cfg)
    {
      hide IntLine, Render;
      WriteInt("s1", cfg.s1);
      WriteInt("s2", cfg.s2);
      WriteInt("s3", cfg.s3);
      WriteInt("s4", cfg.s4);
    }

    method WriteHeaders(cfg: Config)
      requires Valid()
      modifies this
      ensures Valid() && lines == old(lines) + HeaderLines(cfg)
    {
      hide TextLine, Render;
      WriteText("h1", cfg.h1);
      WriteText("h2", cfg.h2);
      WriteText("h3", cfg.h3);
      WriteText("h4", cfg.h4);
    }

    method WriteSpecs(cfg: Config)
      requires Valid()
      modifies this
      ensures Valid() && lines == old(lines) + SpecLines(cfg)
    {
      hide TextLine, Render;
      WriteText("i1", cfg.i1);
      WriteText("i2", cfg.i2);
      WriteText("i3", cfg.i3);
      WriteText("i4", cfg.i4);
      WriteText("i5", cfg.i5);
    }

    method WritePeer(t: Host, p: PeerConfig)
      requires Valid()
      modifies this
      ensures Valid() && lines == old(lines) + PeerLines(t, p)
    {
      hide PeerKeyLines, PeerSettingLines, Render;
      WritePeerKeys(p);
      WritePeerSettings(t, p);
      WriteAllowed(t, p.allowedIPs);
    }

    method WritePeerKeys(p: PeerConfig)
      requires Valid()
      modifies this
      ensures Valid() && lines == old(lines) + PeerKeyLines(p)
    {
      hide KeyLine, FlagLine, Render, HexEncode;
      Write("public_key", HexEncode(p.publicKey));
      WriteFlag("remove", p.remove);
      WriteFlag("update_only", p.updateOnly);
      WriteKey("preshared_key", p.presharedKey);
    }

    method WritePeerSettings(t: Host, p: PeerConfig)
      requires Valid()
      modifies this
      ensures Valid() && lines == old(lines) + PeerSettingLines(t, p)
    {
      hide IntLine, FlagLine, Render;
      if p.endpoint.Some? {
        Write("endpoint", t.printAddr(p.endpoint.value));
      }
      assert lines == old(lines) + EndpointLine(t, p.endpoint);
      WriteInt("persistent_keepalive_interval", Seconds(p.keepalive));
      WriteFlag("replace_allowed_ips", p.replaceAllowedIPs);
    }

    method WriteAllowed(t: Host, ips: seq<IPNet>)
      requires Valid()
      modifies this
      ensures Valid() && lines == old(lines) + AllowedLines(t, ips)
    {
      for i := 0 to |ips|
        invariant Valid()
        invariant lines + AllowedLines(t, ips[i..]) == old(lines) + AllowedLines(t, ips)
      {
        assert ips[i..][1..] == ips[i + 1..];
        Write("allowed_ip", t.printCIDR(ips[i]));
      }
      assert ips[|ips|..] == [];
    }

    method WriteBasics(cfg: Config)
      requires Valid()
      modifies this
      ensures Valid() && lines == old(lines) + BasicLines(cfg)
    {
      hide KeyLine, IntLine, Render;
      WriteKey("private_key", cfg.privateKey);
      WriteInt("listen_port", cfg.listenPort);
      WriteInt("fwmark", cfg.firewallMark);
    }

    method WritePeers(t: Host, ps: seq<PeerConfig>)
      requires Valid()
      modifies this
      ensures Valid() && lines == old(lines) + PeersLines(t, ps)
    {
      hide PeerLines, Render;
      for i := 0 to |ps|
        invariant Valid()
        invariant lines + PeersLines(t, ps[i..]) == old(lines) + PeersLines(t, ps)
      {
        assert ps[i..][1..] == ps[i + 1..];
        WritePeer(t, ps[i]);
      }
      assert ps[|ps|..] == [];
    }

    /** writeConfig. */
    method WriteConfig(t: Host, cfg: Config)
      requires Valid()
      modifies this
      ensures Valid() && lines == old(lines) + (DeviceLines(cfg) + PeersLines(t, cfg.peers))
    {
      hide BasicLines, JunkLines, PaddingLines, HeaderLines, SpecLines, FlagLine, PeersLines, Render;
      WriteBasics(cfg);
      WriteParameters(cfg);
      WriteFlag("replace_peers", cfg.replacePeers);
      assert lines == old(lines) + DeviceLines(cfg);
      WritePeers(t, cfg.peers);
    }
  }

  lemma {:induction false} RenderOne(l: Line)
    ensures Render([l]) == LineText(l) + "\n"
  {
    assert [l][1..] == [];
  }

  // ----- the request

  /** H1-H4 and I1-I5: the values that are written as they are. */
  function TextValues(cfg: Config): seq<Option<string>> {
    [cfg.h1, cfg.h2, cfg.h3, cfg.h4, cfg.i1, cfg.i2, cfg.i3, cfg.i4, cfg.i5]
  }

  predicate HasLineBreak(s: string) { '\r' in s || '\n' in s }

  predicate LineValuesOk(cfg: Config) {
    forall i :: 0 <= i < 9 && TextValues(cfg)[i].Some? ==> !HasLineBreak(TextValues(cfg)[i].value)
  }

  method CheckLineValues(cfg: Config) returns (ok: bool)
    ensures ok == LineValuesOk(cfg)
  {
    var fields := TextValues(cfg);
    for i := 0 to |fields|
      invariant forall j :: 0 <= j < i && fields[j].Some? ==> !HasLineBreak(fields[j].value)
    {
      if fields[i].Some? && HasLineBreak(fields[i].value) {
        return false;
      }
    }
    return true;
  }

  /** The text configureDevice sends; None when the values are refused. */
  method BuildRequest(t: Host, cfg: Config) returns (r: Option<string>)
    ensures r == if LineValuesOk(cfg) then Some(Request(t, cfg)) else None
  {
    hide LineValuesOk, Request;
    var ok := CheckLineValues(cfg);
    if !ok {
      return None;
    }
    var text := WriteRequest(t, cfg);
    return Some(text);
  }

  method WriteRequest(t: Host, cfg: Config) returns (text: string)
    ensures text == Request(t, cfg)
  {
    hide DeviceLines, PeersLines, Render;
    var buf := new Buffer();
    buf.Write("set", "1");
    buf.WriteConfig(t, cfg);
    assert buf.lines == ConfigLines(t, cfg);
    return buf.text + "\n";
  }
}
