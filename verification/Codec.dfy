/** Typed specs to value trees and back: internal/dnsmasq/unstructured.go with the `json` tags of
    internal/dnsmasq/spec.go. A nil slice and an empty one are the same value here. */
module Codec {
  import opened Kube
  import opened Ensure
  import opened Dnsmasq

  /** A field marked `omitempty` is left out when it holds its zero value. */
  function OptionalStr(key: string, s: string): Tree {
    if s == "" then map[] else map[key := JStr(s)]
  }

  function Strs(xs: seq<string>): Json {
    JArr(seq(|xs|, i requires 0 <= i < |xs| => JStr(xs[i])))
  }

  function OptionalStrs(key: string, xs: seq<string>): Tree {
    if xs == [] then map[] else map[key := Strs(xs)]
  }

  function OptionalItems(key: string, items: seq<Json>): Tree {
    if items == [] then map[] else map[key := JArr(items)]
  }

  function EncodeDnsEntry(e: DnsHostEntry): Json {
    JObj(map["ip" := JStr(e.ip)] + OptionalStrs("hostnames", e.hostnames))
  }

  function EncodeDnsHosts(s: DnsHostsSpec): Tree {
    OptionalStr("controller", s.controller)
    + OptionalItems("hosts", seq(|s.hosts|, i requires 0 <= i < |s.hosts| => EncodeDnsEntry(s.hosts[i])))
  }

  function DhcpAddressing(e: DhcpHostEntry): Tree {
    OptionalStrs("macs", e.macs) + OptionalStr("ip", e.ip) + OptionalStr("hostname", e.hostname)
  }

  function DhcpPolicy(e: DhcpHostEntry): Tree {
    OptionalStrs("setTags", e.setTags) + OptionalStr("leaseTime", e.leaseTime)
  }

  function EncodeDhcpEntry(e: DhcpHostEntry): Json {
    JObj(DhcpAddressing(e) + DhcpPolicy(e))
  }

  function EncodeDhcpHosts(s: DhcpHostsSpec): Tree {
    OptionalStr("controller", s.controller)
    + OptionalItems("hosts", seq(|s.hosts|, i requires 0 <= i < |s.hosts| => EncodeDhcpEntry(s.hosts[i])))
  }

  function EncodeOption(o: DhcpOption): Json {
    JObj(map["key" := JStr(o.key), "values" := Strs(o.values)] + OptionalStrs("tags", o.tags))
  }

  function EncodeDhcpOptions(s: DhcpOptionsSpec): Tree {
    OptionalStr("controller", s.controller)
    + OptionalItems("options", seq(|s.options|, i requires 0 <= i < |s.options| => EncodeOption(s.options[i])))
  }

  /** The wire format, key by key. A text field marked `omitempty` is there unless it is empty. */
  predicate TextField(t: Tree, key: string, s: string) {
    (key in t <==> s != "") && (key in t ==> t[key] == JStr(s))
  }

  predicate TextsField(t: Tree, key: string, xs: seq<string>) {
    (key in t <==> xs != []) && (key in t ==> Texts(t[key], xs))
  }

  predicate DnsEntryWire(j: Json, e: DnsHostEntry) {
    && j.JObj? && j.fields.Keys <= {"ip", "hostnames"}
    && "ip" in j.fields && j.fields["ip"] == JStr(e.ip) && TextsField(j.fields, "hostnames", e.hostnames)
  }

  predicate DnsWire(t: Tree, s: DnsHostsSpec) {
    && t.Keys <= {"controller", "hosts"} && TextField(t, "controller", s.controller)
    && ("hosts" in t <==> s.hosts != [])
    && ("hosts" in t ==>
          && t["hosts"].JArr? && |t["hosts"].items| == |s.hosts|
          && forall i :: 0 <= i < |s.hosts| ==> DnsEntryWire(t["hosts"].items[i], s.hosts[i]))
  }

  predicate DhcpEntryWire(j: Json, e: DhcpHostEntry) {
    && j.JObj? && j.fields.Keys <= {"macs", "ip", "hostname", "setTags", "leaseTime"}
    && TextsField(j.fields, "macs", e.macs) && TextField(j.fields, "ip", e.ip) && TextField(j.fields, "hostname", e.hostname)
    && TextsField(j.fields, "setTags", e.setTags) && TextField(j.fields, "leaseTime", e.leaseTime)
  }

  predicate DhcpWire(t: Tree, s: DhcpHostsSpec) {
    && t.Keys <= {"controller", "hosts"} && TextField(t, "controller", s.controller)
    && ("hosts" in t <==> s.hosts != [])
    && ("hosts" in t ==>
          && t["hosts"].JArr? && |t["hosts"].items| == |s.hosts|
          && forall i :: 0 <= i < |s.hosts| ==> DhcpEntryWire(t["hosts"].items[i], s.hosts[i]))
  }

  predicate OptionWire(j: Json, o: DhcpOption) {
    && j.JObj? && j.fields.Keys <= {"key", "values", "tags"}
    && "key" in j.fields && j.fields["key"] == JStr(o.key)
    && "values" in j.fields && Texts(j.fields["values"], o.values) && TextsField(j.fields, "tags", o.tags)
  }

  predicate OptionsWire(t: Tree, s: DhcpOptionsSpec) {
    && t.Keys <= {"controller", "options"} && TextField(t, "controller", s.controller)
    && ("options" in t <==> s.options != [])
    && ("options" in t ==>
          && t["options"].JArr? && |t["options"].items| == |s.options|
          && forall i :: 0 <= i < |s.options| ==> OptionWire(t["options"].items[i], s.options[i]))
  }

  lemma DnsEntryOnTheWire(e: DnsHostEntry)
    ensures DnsEntryWire(EncodeDnsEntry(e), e)
  {
  }

  lemma OptionOnTheWire(o: DhcpOption)
    ensures OptionWire(EncodeOption(o), o)
  {
  }

  lemma DhcpEntryOnTheWire(e: DhcpHostEntry)
    ensures DhcpEntryWire(EncodeDhcpEntry(e), e)
  {
    DhcpAddressingWire(e);
    DhcpPolicyWire(e);
    DhcpPartsOnTheWire(e, DhcpAddressing(e), DhcpPolicy(e));
  }

  lemma DhcpPartsOnTheWire(e: DhcpHostEntry, a: Tree, p: Tree)
    requires a.Keys <= {"macs", "ip", "hostname"} && p.Keys <= {"setTags", "leaseTime"}
    requires TextsField(a, "macs", e.macs) && TextField(a, "ip", e.ip) && TextField(a, "hostname", e.hostname)
    requires TextsField(p, "setTags", e.setTags) && TextField(p, "leaseTime", e.leaseTime)
    ensures DhcpEntryWire(JObj(a + p), e)
  {
  }

  lemma DhcpAddressingWire(e: DhcpHostEntry)
    ensures var a := DhcpAddressing(e);
            && a.Keys <= {"macs", "ip", "hostname"}
            && TextsField(a, "macs", e.macs) && TextField(a, "ip", e.ip) && TextField(a, "hostname", e.hostname)
  {
  }

  lemma DhcpPolicyWire(e: DhcpHostEntry)
    ensures var p := DhcpPolicy(e);
            && p.Keys <= {"setTags", "leaseTime"}
            && TextsField(p, "setTags", e.setTags) && TextField(p, "leaseTime", e.leaseTime)
  {
  }

  lemma ListOnTheWire(controller: string, key: string, items: seq<Json>)
    requires key != "controller"
    ensures var t := OptionalStr("controller", controller) + OptionalItems(key, items);
            && t.Keys <= {"controller", key} && TextField(t, "controller", controller)
            && (key in t <==> items != []) && (key in t ==> t[key] == JArr(items))
  {
  }

  /** What is encoded has the wire format, for every spec. */
  lemma DnsOnTheWire(s: DnsHostsSpec)
    ensures DnsWire(EncodeDnsHosts(s), s)
  {
    var items := seq(|s.hosts|, i requires 0 <= i < |s.hosts| => EncodeDnsEntry(s.hosts[i]));
    forall i | 0 <= i < |s.hosts| ensures DnsEntryWire(items[i], s.hosts[i]) {
      DnsEntryOnTheWire(s.hosts[i]);
    }
    ListOnTheWire(s.controller, "hosts", items);
  }

  lemma DhcpOnTheWire(s: DhcpHostsSpec)
    ensures DhcpWire(EncodeDhcpHosts(s), s)
  {
    var items := seq(|s.hosts|, i requires 0 <= i < |s.hosts| => EncodeDhcpEntry(s.hosts[i]));
    forall i | 0 <= i < |s.hosts| ensures DhcpEntryWire(items[i], s.hosts[i]) {
      DhcpEntryOnTheWire(s.hosts[i]);
    }
    ListOnTheWire(s.controller, "hosts", items);
  }

  lemma OptionsOnTheWire(s: DhcpOptionsSpec)
    ensures OptionsWire(EncodeDhcpOptions(s), s)
  {
    var items := seq(|s.options|, i requires 0 <= i < |s.options| => EncodeOption(s.options[i]));
    forall i | 0 <= i < |s.options| ensures OptionWire(items[i], s.options[i]) {
      OptionOnTheWire(s.options[i]);
    }
    ListOnTheWire(s.controller, "options", items);
  }

  /** Decoding: an absent or null field is its zero value, one of another type is an error. */
  function DecodeStr(j: Json): Result<string> {
    match j
    case JNull => Ok("")
    case JStr(s) => Ok(s)
    case _ => Err
  }

  function StrField(t: Tree, key: string): Result<string> {
    if key in t then DecodeStr(t[key]) else Ok("")
  }

  function DecodeItems<T>(items: seq<Json>, decode: Json -> Result<T>): Result<seq<T>> {
    if items == [] then Ok([])
    else
      var front := DecodeItems(items[..|items| - 1], decode);
      var last := decode(items[|items| - 1]);
      if front.Ok? && last.Ok? then Ok(front.value + [last.value]) else Err
  }

  function ListField<T>(t: Tree, key: string, decode: Json -> Result<T>): Result<seq<T>> {
    if key !in t || t[key].JNull? then Ok([])
    else if t[key].JArr? then DecodeItems(t[key].items, decode)
    else Err
  }

  /** The fields of a struct value; null leaves the zero struct. */
  function StructFields(j: Json): Result<Tree> {
    match j
    case JNull => Ok(map[])
    case JObj(fields) => Ok(fields)
    case _ => Err
  }

  function DecodeDnsEntry(j: Json): Result<DnsHostEntry> {
    var t := StructFields(j);
    if t.Err? then Err
    else
      var ip, hostnames := StrField(t.value, "ip"), ListField(t.value, "hostnames", DecodeStr);
      if ip.Ok? && hostnames.Ok? then Ok(DnsHostEntry(ip.value, hostnames.value)) else Err
  }

  function ParseDnsHosts(t: Tree): Result<DnsHostsSpec> {
    var controller, hosts := StrField(t, "controller"), ListField(t, "hosts", DecodeDnsEntry);
    if controller.Ok? && hosts.Ok? then Ok(DnsHostsSpec(controller.value, hosts.value)) else Err
  }

  function DecodeDhcpEntry(j: Json): Result<DhcpHostEntry> {
    var t := StructFields(j);
    if t.Err? then Err
    else
      var macs, ip := ListField(t.value, "macs", DecodeStr), StrField(t.value, "ip");
      var hostname, setTags := StrField(t.value, "hostname"), ListField(t.value, "setTags", DecodeStr);
      var leaseTime := StrField(t.value, "leaseTime");
      if macs.Ok? && ip.Ok? && hostname.Ok? && setTags.Ok? && leaseTime.Ok?
      then Ok(DhcpHostEntry(macs.value, ip.value, hostname.value, setTags.value, leaseTime.value)) else Err
  }

  function ParseDhcpHosts(t: Tree): Result<DhcpHostsSpec> {
    var controller, hosts := StrField(t, "controller"), ListField(t, "hosts", DecodeDhcpEntry);
    if controller.Ok? && hosts.Ok? then Ok(DhcpHostsSpec(controller.value, hosts.value)) else Err
  }

  function DecodeOption(j: Json): Result<DhcpOption> {
    var t := StructFields(j);
    if t.Err? then Err
    else
      var key, values := StrField(t.value, "key"), ListField(t.value, "values", DecodeStr);
      var tags := ListField(t.value, "tags", DecodeStr);
      if key.Ok? && values.Ok? && tags.Ok? then Ok(DhcpOption(key.value, values.value, tags.value)) else Err
  }

  function ParseDhcpOptions(t: Tree): Result<DhcpOptionsSpec> {
    var controller, options := StrField(t, "controller"), ListField(t, "options", DecodeOption);
    if controller.Ok? && options.Ok? then Ok(DhcpOptionsSpec(controller.value, options.value)) else Err
  }

  /** Decoding element by element undoes encoding element by element. */
  lemma {:induction false} ItemsRoundTrip<T>(items: seq<Json>, decode: Json -> Result<T>, xs: seq<T>)
    requires |items| == |xs| && forall i :: 0 <= i < |xs| ==> decode(items[i]) == Ok(xs[i])
    ensures DecodeItems(items, decode) == Ok(xs)
  {
    if items != [] {
      ItemsRoundTrip(items[..|items| - 1], decode, xs[..|xs| - 1]);
      assert xs == xs[..|xs| - 1] + [xs[|xs| - 1]];
    }
  }

  lemma StrsRoundTrip(t: Tree, key: string, xs: seq<string>)
    requires if key in t then t[key] == Strs(xs) else xs == []
    ensures ListField(t, key, DecodeStr) == Ok(xs)
  {
    if key in t {
      ItemsRoundTrip(t[key].items, DecodeStr, xs);
    }
  }

  lemma DnsEntryRoundTrip(e: DnsHostEntry)
    ensures DecodeDnsEntry(EncodeDnsEntry(e)) == Ok(e)
  {
    StrsRoundTrip(EncodeDnsEntry(e).fields, "hostnames", e.hostnames);
  }

  lemma DhcpEntryRoundTrip(e: DhcpHostEntry)
    ensures DecodeDhcpEntry(EncodeDhcpEntry(e)) == Ok(e)
  {
    DhcpAddressingFields(e);
    DhcpPolicyFields(e);
    DhcpFieldsRoundTrip(e, DhcpAddressing(e), DhcpPolicy(e));
  }

  lemma DhcpFieldsRoundTrip(e: DhcpHostEntry, a: Tree, p: Tree)
    requires a.Keys <= {"macs", "ip", "hostname"} && p.Keys <= {"setTags", "leaseTime"}
    requires if "macs" in a then a["macs"] == Strs(e.macs) else e.macs == []
    requires if "setTags" in p then p["setTags"] == Strs(e.setTags) else e.setTags == []
    requires StrField(a, "ip") == Ok(e.ip) && StrField(a, "hostname") == Ok(e.hostname)
    requires StrField(p, "leaseTime") == Ok(e.leaseTime)
    ensures DecodeDhcpEntry(JObj(a + p)) == Ok(e)
  {
    StrsRoundTrip(a + p, "macs", e.macs);
    StrsRoundTrip(a + p, "setTags", e.setTags);
  }

  lemma DhcpAddressingFields(e: DhcpHostEntry)
    ensures var t := DhcpAddressing(e);
            && t.Keys <= {"macs", "ip", "hostname"}
            && (if "macs" in t then t["macs"] == Strs(e.macs) else e.macs == [])
            && StrField(t, "ip") == Ok(e.ip) && StrField(t, "hostname") == Ok(e.hostname)
  {
  }

  lemma DhcpPolicyFields(e: DhcpHostEntry)
    ensures var t := DhcpPolicy(e);
            && t.Keys <= {"setTags", "leaseTime"}
            && (if "setTags" in t then t["setTags"] == Strs(e.setTags) else e.setTags == [])
            && StrField(t, "leaseTime") == Ok(e.leaseTime)
  {
  }

  lemma OptionRoundTrip(o: DhcpOption)
    ensures DecodeOption(EncodeOption(o)) == Ok(o)
  {
    StrsRoundTrip(EncodeOption(o).fields, "values", o.values);
    StrsRoundTrip(EncodeOption(o).fields, "tags", o.tags);
  }

  lemma TwoFields<T>(controller: string, key: string, items: seq<Json>, decode: Json -> Result<T>)
    requires key != "controller"
    ensures var t := OptionalStr("controller", controller) + OptionalItems(key, items);
            StrField(t, "controller") == Ok(controller) && ListField(t, key, decode) == DecodeItems(items, decode)
  {
  }

  /** Parsing an encoded spec returns it, although empty fields were left out of the tree. */
  lemma DnsHostsRoundTrip(s: DnsHostsSpec)
    ensures ParseDnsHosts(EncodeDnsHosts(s)) == Ok(s)
  {
    var items := seq(|s.hosts|, i requires 0 <= i < |s.hosts| => EncodeDnsEntry(s.hosts[i]));
    assert DecodeItems(items, DecodeDnsEntry) == Ok(s.hosts) by {
      forall i | 0 <= i < |s.hosts| ensures DecodeDnsEntry(items[i]) == Ok(s.hosts[i]) {
        DnsEntryRoundTrip(s.hosts[i]);
      }
      ItemsRoundTrip(items, DecodeDnsEntry, s.hosts);
    }
    assert EncodeDnsHosts(s) == OptionalStr("controller", s.controller) + OptionalItems("hosts", items);
    TwoFields(s.controller, "hosts", items, DecodeDnsEntry);
  }

  lemma DhcpHostsRoundTrip(s: DhcpHostsSpec)
    ensures ParseDhcpHosts(EncodeDhcpHosts(s)) == Ok(s)
  {
    var items := seq(|s.hosts|, i requires 0 <= i < |s.hosts| => EncodeDhcpEntry(s.hosts[i]));
    assert DecodeItems(items, DecodeDhcpEntry) == Ok(s.hosts) by {
      forall i | 0 <= i < |s.hosts| ensures DecodeDhcpEntry(items[i]) == Ok(s.hosts[i]) {
        DhcpEntryRoundTrip(s.hosts[i]);
      }
      ItemsRoundTrip(items, DecodeDhcpEntry, s.hosts);
    }
    assert EncodeDhcpHosts(s) == OptionalStr("controller", s.controller) + OptionalItems("hosts", items);
    TwoFields(s.controller, "hosts", items, DecodeDhcpEntry);
  }

  lemma DhcpOptionsRoundTrip(s: DhcpOptionsSpec)
    ensures ParseDhcpOptions(EncodeDhcpOptions(s)) == Ok(s)
  {
    var items := seq(|s.options|, i requires 0 <= i < |s.options| => EncodeOption(s.options[i]));
    assert DecodeItems(items, DecodeOption) == Ok(s.options) by {
      forall i | 0 <= i < |s.options| ensures DecodeOption(items[i]) == Ok(s.options[i]) {
        OptionRoundTrip(s.options[i]);
      }
      ItemsRoundTrip(items, DecodeOption, s.options);
    }
    assert EncodeDhcpOptions(s) == OptionalStr("controller", s.controller) + OptionalItems("options", items);
    TwoFields(s.controller, "options", items, DecodeOption);
  }

  /** What decoding makes of a tree, field by field: absent and null are the zero value, and nothing else is read
      as what it is not. */
  predicate ReadsText(j: Json, s: string) {
    j == JStr(s) || (j == JNull && s == "")
  }

  predicate TextRead(t: Tree, key: string, s: string) {
    if key in t then ReadsText(t[key], s) else s == ""
  }

  ghost predicate ListRead<T(!new)>(t: Tree, key: string, fits: (Json, T) -> bool, xs: seq<T>) {
    if key !in t || t[key] == JNull then xs == []
    else t[key].JArr? && |t[key].items| == |xs| && forall i :: 0 <= i < |xs| ==> fits(t[key].items[i], xs[i])
  }

  /** The fields of a struct; those of null are none. */
  predicate StructRead(j: Json, t: Tree) {
    j == JObj(t) || (j == JNull && t == map[])
  }

  ghost predicate DnsEntryRead(j: Json, e: DnsHostEntry) {
    exists t :: StructRead(j, t) && TextRead(t, "ip", e.ip) && ListRead(t, "hostnames", ReadsText, e.hostnames)
  }

  ghost predicate DhcpEntryRead(j: Json, e: DhcpHostEntry) {
    exists t :: && StructRead(j, t)
                && ListRead(t, "macs", ReadsText, e.macs) && TextRead(t, "ip", e.ip) && TextRead(t, "hostname", e.hostname)
                && ListRead(t, "setTags", ReadsText, e.setTags) && TextRead(t, "leaseTime", e.leaseTime)
  }

  ghost predicate OptionRead(j: Json, o: DhcpOption) {
    exists t :: && StructRead(j, t) && TextRead(t, "key", o.key)
                && ListRead(t, "values", ReadsText, o.values) && ListRead(t, "tags", ReadsText, o.tags)
  }

  lemma {:induction false} ItemsDecoded<T>(items: seq<Json>, decode: Json -> Result<T>, xs: seq<T>)
    ensures DecodeItems(items, decode) == Ok(xs) <==>
              |items| == |xs| && forall i :: 0 <= i < |xs| ==> decode(items[i]) == Ok(xs[i])
  {
    if items == [] {
    } else if xs != [] {
      ItemsDecoded(items[..|items| - 1], decode, xs[..|xs| - 1]);
      assert xs == xs[..|xs| - 1] + [xs[|xs| - 1]];
      forall front: seq<T>, last: T ensures front + [last] == xs <==> front == xs[..|xs| - 1] && last == xs[|xs| - 1] {
        assert (front + [last])[..|front + [last]| - 1] == front;
      }
    }
  }

  lemma ListDecoded<T(!new)>(t: Tree, key: string, decode: Json -> Result<T>, fits: (Json, T) -> bool, xs: seq<T>)
    requires forall j, x :: decode(j) == Ok(x) <==> fits(j, x)
    ensures ListField(t, key, decode) == Ok(xs) <==> ListRead(t, key, fits, xs)
  {
    if key in t && t[key].JArr? {
      ItemsDecoded(t[key].items, decode, xs);
    }
  }

  lemma TextsDecoded(t: Tree, key: string, xs: seq<string>)
    ensures ListField(t, key, DecodeStr) == Ok(xs) <==> ListRead(t, key, ReadsText, xs)
  {
    ListDecoded(t, key, DecodeStr, ReadsText, xs);
  }

  lemma DnsEntryDecoded(j: Json, e: DnsHostEntry)
    ensures DecodeDnsEntry(j) == Ok(e) <==> DnsEntryRead(j, e)
  {
    forall t: Tree ensures ListField(t, "hostnames", DecodeStr) == Ok(e.hostnames) <==> ListRead(t, "hostnames", ReadsText, e.hostnames) {
      TextsDecoded(t, "hostnames", e.hostnames);
    }
    assert StructFields(j).Ok? ==> StructRead(j, StructFields(j).value);
  }

  lemma OptionDecoded(j: Json, o: DhcpOption)
    ensures DecodeOption(j) == Ok(o) <==> OptionRead(j, o)
  {
    forall t: Tree ensures ListField(t, "values", DecodeStr) == Ok(o.values) <==> ListRead(t, "values", ReadsText, o.values)
      ensures ListField(t, "tags", DecodeStr) == Ok(o.tags) <==> ListRead(t, "tags", ReadsText, o.tags)
    {
      TextsDecoded(t, "values", o.values);
      TextsDecoded(t, "tags", o.tags);
    }
    assert StructFields(j).Ok? ==> StructRead(j, StructFields(j).value);
  }

  lemma DhcpEntryDecoded(j: Json, e: DhcpHostEntry)
    ensures DecodeDhcpEntry(j) == Ok(e) <==> DhcpEntryRead(j, e)
  {
    forall t: Tree ensures ListField(t, "macs", DecodeStr) == Ok(e.macs) <==> ListRead(t, "macs", ReadsText, e.macs)
      ensures ListField(t, "setTags", DecodeStr) == Ok(e.setTags) <==> ListRead(t, "setTags", ReadsText, e.setTags)
    {
      TextsDecoded(t, "macs", e.macs);
      TextsDecoded(t, "setTags", e.setTags);
    }
    assert StructFields(j).Ok? ==> StructRead(j, StructFields(j).value);
  }

  /** A DnsHosts spec is parsed, from whatever tree, exactly as its fields read; anything else is an error. */
  lemma DnsHostsParsed(t: Tree, s: DnsHostsSpec)
    ensures ParseDnsHosts(t) == Ok(s) <==>
              TextRead(t, "controller", s.controller) && ListRead(t, "hosts", (j, e) => DnsEntryRead(j, e), s.hosts)
  {
    forall j, e ensures DecodeDnsEntry(j) == Ok(e) <==> DnsEntryRead(j, e) {
      DnsEntryDecoded(j, e);
    }
    ListDecoded(t, "hosts", DecodeDnsEntry, (j, e) => DnsEntryRead(j, e), s.hosts);
  }

  lemma DhcpHostsParsed(t: Tree, s: DhcpHostsSpec)
    ensures ParseDhcpHosts(t) == Ok(s) <==>
              TextRead(t, "controller", s.controller) && ListRead(t, "hosts", (j, e) => DhcpEntryRead(j, e), s.hosts)
  {
    forall j, e ensures DecodeDhcpEntry(j) == Ok(e) <==> DhcpEntryRead(j, e) {
      DhcpEntryDecoded(j, e);
    }
    ListDecoded(t, "hosts", DecodeDhcpEntry, (j, e) => DhcpEntryRead(j, e), s.hosts);
  }

  lemma DhcpOptionsParsed(t: Tree, s: DhcpOptionsSpec)
    ensures ParseDhcpOptions(t) == Ok(s) <==>
              TextRead(t, "controller", s.controller) && ListRead(t, "options", (j, o) => OptionRead(j, o), s.options)
  {
    forall j, o ensures DecodeOption(j) == Ok(o) <==> OptionRead(j, o) {
      OptionDecoded(j, o);
    }
    ListDecoded(t, "options", DecodeOption, (j, o) => OptionRead(j, o), s.options);
  }

  /** "Unchanged" means the live object, whatever its tree, parses to the desired spec; and a live object
      written by the operator gets that verdict exactly when its typed spec equals the desired one. */
  lemma UnchangedMeansEqualSpecs(live: Obj, desired: DnsHostsSpec, dhcp: DhcpHostsSpec, options: DhcpOptionsSpec)
    requires !live.spec.NotAMap?
    ensures Verdict(Some(live), Fields(EncodeDnsHosts(desired))) == Ok(Unchanged)
            ==> ParseDnsHosts(SpecTree(live.spec)) == Ok(desired)
    ensures Verdict(Some(live), Fields(EncodeDhcpHosts(dhcp))) == Ok(Unchanged)
            ==> ParseDhcpHosts(SpecTree(live.spec)) == Ok(dhcp)
    ensures Verdict(Some(live), Fields(EncodeDhcpOptions(options))) == Ok(Unchanged)
            ==> ParseDhcpOptions(SpecTree(live.spec)) == Ok(options)
    ensures forall old' ::
              live.spec == Fields(EncodeDnsHosts(old')) ==>
                (Verdict(Some(live), Fields(EncodeDnsHosts(desired))) == Ok(Unchanged) <==> old' == desired)
    ensures forall old' ::
              live.spec == Fields(EncodeDhcpHosts(old')) ==>
                (Verdict(Some(live), Fields(EncodeDhcpHosts(dhcp))) == Ok(Unchanged) <==> old' == dhcp)
    ensures forall old' ::
              live.spec == Fields(EncodeDhcpOptions(old')) ==>
                (Verdict(Some(live), Fields(EncodeDhcpOptions(options))) == Ok(Unchanged) <==> old' == options)
  {
    DnsHostsRoundTrip(desired);
    DhcpHostsRoundTrip(dhcp);
    DhcpOptionsRoundTrip(options);
    forall old' ensures ParseDnsHosts(EncodeDnsHosts(old')) == Ok(old') { DnsHostsRoundTrip(old'); }
    forall old' ensures ParseDhcpHosts(EncodeDhcpHosts(old')) == Ok(old') { DhcpHostsRoundTrip(old'); }
    forall old' ensures ParseDhcpOptions(EncodeDhcpOptions(old')) == Ok(old') { DhcpOptionsRoundTrip(old'); }
  }
}
