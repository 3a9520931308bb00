/** Comma lists, derived defaults, and flags on top of environment settings: internal/config. */
module Settings {
  import opened Ordering
  import opened Homelab

  /** The white space that `strings.TrimSpace` removes. */
  predicate IsSpace(c: char) {
    c == '\t' || c == '\n' || c == '\U{0B}' || c == '\U{0C}' || c == '\r' || c == ' '
    || c == '\U{85}' || c == '\U{A0}' || c == '\U{1680}' || '\U{2000}' <= c <= '\U{200A}'
    || c == '\U{2028}' || c == '\U{2029}' || c == '\U{202F}' || c == '\U{205F}' || c == '\U{3000}'
  }

  /** By code point: five controls, the blank, and the other white space of Unicode. */
  lemma WhiteSpace(c: char)
    ensures IsSpace(c) <==>
              || 9 <= c as int <= 13 || 8192 <= c as int <= 8202
              || c as int in {32, 133, 160, 5760, 8232, 8233, 8239, 8287, 12288}
  {
  }

  function TrimLeft(s: string): string {
    if s != "" && IsSpace(s[0]) then TrimLeft(s[1..]) else s
  }

  function TrimRight(s: string): string {
    if s != "" && IsSpace(s[|s| - 1]) then TrimRight(s[..|s| - 1]) else s
  }

  function Trim(s: string): string {
    TrimRight(TrimLeft(s))
  }

  /** The pieces between commas, at least one. */
  function Parts(s: string): (r: seq<string>)
    ensures r != []
  {
    if s == "" then [""]
    else
      var rest := Parts(s[1..]);
      if s[0] == ',' then [""] + rest else [[s[0]] + rest[0]] + rest[1..]
  }

  function Kept(part: string): seq<string> {
    if Trim(part) != "" then [Trim(part)] else []
  }

  function Split(s: string): seq<string> {
    Collect(Parts(s), Kept)
  }

  /** `strings.Join` with a comma. */
  function Join(xs: seq<string>): string {
    if xs == [] then ""
    else if |xs| == 1 then xs[0]
    else Join(xs[..|xs| - 1]) + "," + xs[|xs| - 1]
  }

  method SplitCommaList(s: string) returns (out: seq<string>)
    ensures out == Split(s)
  {
    out := [];
    if s == "" {
      assert Parts(s)[..0] == [];
      return;
    }
    var parts := Parts(s);
    for j := 0 to |parts|
      invariant out == Collect(parts[..j], Kept)
    {
      CollectStep(parts, j, Kept);
      var part := Trim(parts[j]);
      if part != "" {
        out := out + [part];
      }
    }
    assert parts[..|parts|] == parts;
  }

  lemma {:induction false} TrimLeftMeaning(s: string) returns (n: nat)
    ensures n <= |s| && TrimLeft(s) == s[n..]
    ensures forall i :: 0 <= i < n ==> IsSpace(s[i])
    ensures n < |s| ==> !IsSpace(s[n])
  {
    n := 0;
    if s != "" && IsSpace(s[0]) {
      var m := TrimLeftMeaning(s[1..]);
      n := m + 1;
      assert forall i :: 0 < i <= m ==> s[i] == s[1..][i - 1];
    }
  }

  lemma {:induction false} TrimRightMeaning(s: string) returns (n: nat)
    ensures n <= |s| && TrimRight(s) == s[..n]
    ensures forall i :: n <= i < |s| ==> IsSpace(s[i])
    ensures n > 0 ==> !IsSpace(s[n - 1])
  {
    n := |s|;
    if s != "" && IsSpace(s[|s| - 1]) {
      var front := s[..|s| - 1];
      n := TrimRightMeaning(front);
      assert front[..n] == s[..n];
      assert forall i :: n <= i < |front| ==> s[i] == front[i];
    }
  }

  predicate AllSpace(s: string) {
    forall i :: 0 <= i < |s| ==> IsSpace(s[i])
  }

  /** Trimming leaves text without white space at either end, made of characters of the original; nothing
      exactly when there was nothing else. */
  lemma TrimMeaning(s: string)
    ensures var r := Trim(s);
            && (r != "" ==> !IsSpace(r[0]) && !IsSpace(r[|r| - 1]))
            && (forall c :: c in r ==> c in s)
            && (r == "" <==> AllSpace(s))
  {
    var n := TrimLeftMeaning(s);
    var t := s[n..];
    var m := TrimRightMeaning(t);
    assert forall i :: 0 <= i < |t| ==> t[i] == s[n + i];
    assert t != "" ==> m != 0 by {
      assert t != "" ==> t[0] == s[n];
    }
  }

  /** And it removes nothing else: what is left is a stretch of the original between white space. */
  lemma TrimExact(s: string) returns (a: nat, b: nat)
    ensures a <= b <= |s| && Trim(s) == s[a..b] && AllSpace(s[..a]) && AllSpace(s[b..])
  {
    a := TrimLeftMeaning(s);
    var n := TrimRightMeaning(s[a..]);
    b := a + n;
    assert s[a..][..n] == s[a..b];
    assert forall i :: b <= i < |s| ==> s[i] == s[a..][i - a];
  }

  /** Text that trimming leaves alone. */
  lemma TrimFixed(s: string)
    ensures Trim(s) == s <==> s == "" || (!IsSpace(s[0]) && !IsSpace(s[|s| - 1]))
  {
    TrimMeaning(s);
  }

  /** An entry as a comma list can hold it: not empty, without commas, without white space around it. */
  predicate Clean(e: string) {
    e != "" && ',' !in e && !IsSpace(e[0]) && !IsSpace(e[|e| - 1])
  }

  /** An entry with nothing in it but commas and white space. */
  predicate Blank(e: string) {
    forall c :: c in e ==> c == ',' || IsSpace(c)
  }

  lemma {:induction false} PartsCharacters(s: string)
    ensures forall p :: p in Parts(s) ==> ',' !in p
    ensures forall c :: c in s && c != ',' <==> exists p :: p in Parts(s) && c in p
  {
    if s != "" {
      var rest := Parts(s[1..]);
      PartsCharacters(s[1..]);
      assert s == [s[0]] + s[1..] && rest == [rest[0]] + rest[1..];
      forall c ensures c in s && c != ',' <==> exists p :: p in Parts(s) && c in p {
        if c in s && c != ',' {
          if c == s[0] {
            assert c in Parts(s)[0];
          } else {
            var p :| p in rest && c in p;
            if s[0] == ',' {
              assert p in Parts(s);
            } else if p == rest[0] {
              assert c in Parts(s)[0];
            } else {
              assert p in Parts(s);
            }
          }
        }
        if p :| p in Parts(s) && c in p {
          if p !in rest && s[0] != ',' {
            assert p == [s[0]] + rest[0];
            assert c == s[0] || c in rest[0];
          }
        }
      }
    }
  }

  lemma {:induction false} JoinGrows(c: char, xs: seq<string>)
    requires xs != []
    ensures Join([[c] + xs[0]] + xs[1..]) == [c] + Join(xs)
    ensures Join([""] + xs) == "," + Join(xs)
  {
    if |xs| == 1 {
      assert ([""] + xs)[..1] == [""];
    } else {
      var front, last := xs[..|xs| - 1], xs[|xs| - 1];
      JoinGrows(c, front);
      assert ([[c] + xs[0]] + xs[1..])[..|xs| - 1] == [[c] + front[0]] + front[1..];
      assert ([""] + xs)[..|xs|] == [""] + front;
    }
  }

  /** The pieces are the text between commas: free of commas, and joined they give the text back. */
  lemma {:induction false} PartsExact(s: string)
    ensures Join(Parts(s)) == s && forall p :: p in Parts(s) ==> ',' !in p
  {
    PartsCharacters(s);
    if s != "" {
      PartsExact(s[1..]);
      JoinGrows(s[0], Parts(s[1..]));
      assert s == [s[0]] + s[1..];
    }
  }

  lemma KeptMeaning(p: string)
    requires ',' !in p
    ensures forall e :: e in Kept(p) ==> Clean(e)
    ensures Kept(p) == [] <==> Blank(p)
  {
    TrimMeaning(p);
    if !Blank(p) {
      var c :| c in p && !IsSpace(c);
    }
  }

  /** Whatever the text, splitting yields clean entries only; none exactly when the text is blank. */
  lemma SplitMeaning(s: string)
    ensures forall e :: e in Split(s) ==> Clean(e)
    ensures Split(s) == [] <==> Blank(s)
  {
    PartsCharacters(s);
    CollectMembers(Parts(s), Kept);
    forall p | p in Parts(s) ensures (forall e :: e in Kept(p) ==> Clean(e)) && (Kept(p) == [] <==> Blank(p)) {
      KeptMeaning(p);
    }
    SplitEmpty(s);
  }

  lemma SplitEmpty(s: string)
    ensures Split(s) == [] <==> Blank(s)
  {
    PartsCharacters(s);
    CollectMembers(Parts(s), Kept);
    if Split(s) != [] {
      assert Split(s)[0] in Split(s);
      var p :| p in Parts(s) && Split(s)[0] in Kept(p);
      KeptMeaning(p);
      var c :| c in p && !IsSpace(c);
      assert c in s;
    }
    if !Blank(s) {
      var c :| c in s && c != ',' && !IsSpace(c);
      var p :| p in Parts(s) && c in p;
      KeptMeaning(p);
      assert Kept(p)[0] in Split(s);
    }
  }

  lemma {:induction false} PartsOfCommaFree(s: string)
    requires ',' !in s
    ensures Parts(s) == [s]
  {
    if s != "" {
      PartsOfCommaFree(s[1..]);
      assert s == [s[0]] + s[1..];
    }
  }

  lemma PartsStep(c: char, s: string)
    ensures Parts([c] + s) == if c == ',' then [""] + Parts(s) else [[c] + Parts(s)[0]] + Parts(s)[1..]
  {
    assert ([c] + s)[1..] == s;
  }

  lemma FirstGrows(c: char, p: seq<string>, q: seq<string>)
    requires p != []
    ensures [[c] + (p + q)[0]] + (p + q)[1..] == [[c] + p[0]] + p[1..] + q
    ensures [""] + (p + q) == [""] + p + q
  {
  }

  lemma {:induction false} PartsOfTwo(a: string, b: string)
    ensures Parts(a + "," + b) == Parts(a) + Parts(b)
  {
    if a == "" {
      assert a + "," + b == [','] + b;
      PartsStep(',', b);
    } else {
      var rest := a[1..];
      PartsOfTwo(rest, b);
      assert a + "," + b == [a[0]] + (rest + "," + b) && a == [a[0]] + rest;
      PartsStep(a[0], rest + "," + b);
      PartsStep(a[0], rest);
      FirstGrows(a[0], Parts(rest), Parts(b));
    }
  }

  /** Splitting a joined list splits each of its entries. */
  lemma {:induction false} SplitOfJoin(xs: seq<string>)
    ensures Split(Join(xs)) == Collect(xs, Split)
  {
    if xs == [] {
      assert Parts("")[..0] == [];
    } else if |xs| == 1 {
      assert xs[..0] == [];
    } else {
      var front, last := xs[..|xs| - 1], xs[|xs| - 1];
      SplitOfJoin(front);
      PartsOfTwo(Join(front), last);
      CollectConcat(Parts(Join(front)), Parts(last), Kept);
    }
  }

  lemma SplitOfClean(e: string)
    requires Clean(e)
    ensures Split(e) == [e]
  {
    PartsOfCommaFree(e);
    TrimFixed(e);
    CollectTwo(e, e, Kept);
  }

  /** Splitting undoes joining exactly for lists of clean entries. */
  lemma SplitUndoesJoinIff(xs: seq<string>)
    ensures Split(Join(xs)) == xs <==> forall e :: e in xs ==> Clean(e)
  {
    SplitMeaning(Join(xs));
    if forall e :: e in xs ==> Clean(e) {
      SplitOfJoin(xs);
      CollectSingles(xs);
    }
  }

  lemma {:induction false} CollectSingles(xs: seq<string>)
    requires forall e :: e in xs ==> Clean(e)
    ensures Collect(xs, Split) == xs
  {
    if xs != [] {
      var front, last := xs[..|xs| - 1], xs[|xs| - 1];
      assert xs == front + [last];
      CollectSingles(front);
      SplitOfClean(last);
    }
  }

  /** The comma-list normal form, for every text. */
  lemma SplitJoinSplit(s: string)
    ensures Split(Join(Split(s))) == Split(s)
  {
    SplitMeaning(s);
    SplitUndoesJoinIff(Split(s));
  }

  /** A suffix or name as a search domain. */
  function Stem(raw: string): string {
    var t := Trim(raw);
    if t != "" && t[0] == '.' then t[1..] else t
  }

  function Added(out: seq<string>, raw: string): seq<string> {
    if Stem(raw) == "" || Stem(raw) in out then out else out + [Stem(raw)]
  }

  predicate Derives(cfg: Config) {
    cfg.domainSearch == [] && cfg.domainName != "" && (cfg.deviceSuffix != "" || cfg.loadBalancerSuffix != "")
  }

  function DerivedSearch(name: string, loadBalancerSuffix: string, deviceSuffix: string): seq<string> {
    Added(Added(Added([], name), loadBalancerSuffix), deviceSuffix)
  }

  function WithRadiusDefault(cfg: Config): Config {
    if cfg.enableFreeRadius && cfg.freeRadiusNamespace == "" then cfg.(freeRadiusNamespace := cfg.dnsmasqNamespace) else cfg
  }

  function SearchOf(cfg: Config): seq<string> {
    if Derives(cfg) then DerivedSearch(cfg.domainName, cfg.loadBalancerSuffix, cfg.deviceSuffix) else cfg.domainSearch
  }

  function WithSearch(cfg: Config): Config {
    cfg.(domainSearch := SearchOf(cfg))
  }

  function Finalized(cfg: Config): Config {
    WithSearch(WithRadiusDefault(cfg))
  }

  datatype CsvFlags = CsvFlags(domainSearch: string, watchNamespaces: string)

  function Bound(cfg: Config): CsvFlags {
    CsvFlags(Join(cfg.domainSearch), Join(cfg.watchNamespaces))
  }

  function Applied(cfg: Config, cf: CsvFlags): Config {
    Finalized(cfg.(domainSearch := Split(cf.domainSearch), watchNamespaces := Split(cf.watchNamespaces)))
  }

  /** The settings, changed in place. */
  class Settings {
    var cfg: Config

    /** Settings from the environment: two comma lists, and everything else. */
    constructor Load(env: Config, search: string, watch: string)
      ensures cfg == Applied(env, CsvFlags(search, watch))
    {
      var searchList := SplitCommaList(search);
      var watchList := SplitCommaList(watch);
      cfg := env.(domainSearch := searchList, watchNamespaces := watchList);
      new;
      Finalize();
    }

    method Finalize()
      modifies this
      ensures cfg == Finalized(old(cfg))
    {
      if cfg.enableFreeRadius && cfg.freeRadiusNamespace == "" {
        cfg := cfg.(freeRadiusNamespace := cfg.dnsmasqNamespace);
      }
      DeriveDomainSearch();
    }

    static method Add(out: seq<string>, raw: string) returns (more: seq<string>)
      ensures more == Added(out, raw)
    {
      var d := Trim(raw);
      if d != "" && d[0] == '.' {
        d := d[1..];
      }
      if d == "" {
        return out;
      }
      if d in out {
        return out;
      }
      more := out + [d];
    }

    method DeriveDomainSearch()
      modifies this
      ensures cfg == WithSearch(old(cfg))
    {
      if |cfg.domainSearch| > 0 || cfg.domainName == "" {
        return;
      }
      if cfg.deviceSuffix == "" && cfg.loadBalancerSuffix == "" {
        return;
      }
      var out := Add([], cfg.domainName);
      out := Add(out, cfg.loadBalancerSuffix);
      out := Add(out, cfg.deviceSuffix);
      cfg := cfg.(domainSearch := out);
    }

    method BindFlags() returns (cf: CsvFlags)
      ensures cf == Bound(cfg)
    {
      cf := CsvFlags(Join(cfg.domainSearch), Join(cfg.watchNamespaces));
    }

    method ApplyCsvFlags(cf: CsvFlags)
      modifies this
      ensures cfg == Applied(old(cfg), cf)
    {
      var search := SplitCommaList(cf.domainSearch);
      cfg := cfg.(domainSearch := search);
      var watch := SplitCommaList(cf.watchNamespaces);
      cfg := cfg.(watchNamespaces := watch);
      Finalize();
    }
  }

  /** A configuration as loaded from the environment. */
  ghost predicate Loaded(cfg: Config) {
    exists env, cf :: cfg == Applied(env, cf)
  }

  /** A derived search list has no empty entry and no duplicate, and holds exactly the stems there are, that
      of the domain name first. */
  lemma DerivedSearchExact(name: string, loadBalancerSuffix: string, deviceSuffix: string)
    ensures var out := DerivedSearch(name, loadBalancerSuffix, deviceSuffix);
            && (forall i, j :: 0 <= i < j < |out| ==> out[i] != out[j])
            && (forall d :: d in out <==>
                  d != "" && (d == Stem(name) || d == Stem(loadBalancerSuffix) || d == Stem(deviceSuffix)))
            && (Stem(name) != "" ==> out[0] == Stem(name))
  {
    var a := Added([], name);
    var b := Added(a, loadBalancerSuffix);
    assert forall d :: d in b <==> d != "" && (d == Stem(name) || d == Stem(loadBalancerSuffix));
  }

  /** Other settings do not matter for the search list, nor the search list for other settings. */
  lemma SearchApart(cfg: Config, search: seq<string>)
    ensures WithRadiusDefault(WithRadiusDefault(cfg).(domainSearch := search)) ==
              WithRadiusDefault(cfg).(domainSearch := search)
    ensures Derives(cfg.(domainSearch := search)) ==> search == []
    ensures search == cfg.domainSearch ==> cfg.(domainSearch := search) == cfg
  {
  }

  lemma SearchSettled(cfg: Config)
    ensures WithSearch(WithSearch(cfg)) == WithSearch(cfg)
  {
    SearchApart(cfg, SearchOf(cfg));
    if WithSearch(cfg).domainSearch == [] {
      assert WithSearch(cfg) == cfg;
    }
  }

  lemma FinalizeIdempotent(cfg: Config)
    ensures Finalized(Finalized(cfg)) == Finalized(cfg)
  {
    var once := WithRadiusDefault(cfg);
    SearchApart(cfg, SearchOf(once));
    SearchSettled(once);
  }

  /** Applying another search list to a finalized configuration changes it, unless the list is the same, or
      is empty so that the entries are derived again. */
  lemma SearchReplaced(before: Config, again: seq<string>)
    requires before.domainSearch != [] ==> again == Finalized(before).domainSearch
    ensures Finalized(Finalized(before).(domainSearch := again)) == Finalized(before) <==>
              again == Finalized(before).domainSearch || again == []
  {
    var once := WithRadiusDefault(before);
    SearchApart(before, again);
    SearchApart(once, again);
    if again == Finalized(before).domainSearch {
      FinalizeIdempotent(before);
    } else if again == [] {
      assert once.(domainSearch := []) == once;
    }
  }

  /** Binding the flags of a loaded configuration and applying them unchanged gives the configuration back
      if and only if the search entries are all clean, or all blank. Explicit lists always are clean; a
      derived entry may not be, as it comes from a name or a suffix as it stands. */
  lemma ReapplyIff(cfg: Config)
    requires Loaded(cfg)
    ensures Applied(cfg, Bound(cfg)) == cfg <==>
              (forall e :: e in cfg.domainSearch ==> Clean(e)) || (forall e :: e in cfg.domainSearch ==> Blank(e))
    ensures Split(Join(cfg.watchNamespaces)) == cfg.watchNamespaces
  {
    var env, cf :| cfg == Applied(env, cf);
    var before := env.(domainSearch := Split(cf.domainSearch), watchNamespaces := Split(cf.watchNamespaces));
    var again := Split(Join(cfg.domainSearch));
    SplitJoinSplit(cf.watchNamespaces);
    SplitJoinSplit(cf.domainSearch);
    SearchReplaced(before, again);
    SplitUndoesJoinIff(cfg.domainSearch);
    SplitEmpty(Join(cfg.domainSearch));
    BlankJoin(cfg.domainSearch);
    assert Applied(cfg, Bound(cfg)) == Finalized(cfg.(domainSearch := again));
  }

  /** A domain name with a comma in it: the derived entry falls apart when it is applied again. */
  lemma CommaInDomainName(env: Config)
    requires env.domainName == "a,b" && env.loadBalancerSuffix == "" && env.deviceSuffix == "c"
    ensures var cfg := Applied(env, CsvFlags("", ""));
            cfg.domainSearch == ["a,b", "c"] && Applied(cfg, Bound(cfg)) != cfg
  {
    var cfg := Applied(env, CsvFlags("", ""));
    SplitEmpty("");
    SearchWithComma();
    assert cfg.domainSearch == ["a,b", "c"];
    assert Loaded(cfg);
    ReapplyIff(cfg);
    NeitherCleanNorBlank();
    assert cfg.domainSearch[0] in cfg.domainSearch;
  }

  lemma SearchWithComma()
    ensures DerivedSearch("a,b", "", "c") == ["a,b", "c"]
  {
    TrimFixed("a,b");
    TrimFixed("c");
    TrimFixed("");
    assert Added([], "a,b") == ["a,b"];
  }

  lemma NeitherCleanNorBlank()
    ensures !Clean("a,b") && !Blank("a,b")
  {
    var e := "a,b";
    assert e[0] in e && e[1] in e;
  }

  lemma BlankJoin(xs: seq<string>)
    ensures Blank(Join(xs)) <==> forall e :: e in xs ==> Blank(e)
  {
    SplitOfJoin(xs);
    SplitMeaning(Join(xs));
    CollectMembers(xs, Split);
    forall e ensures Split(e) == [] <==> Blank(e) {
      SplitMeaning(e);
    }
    var all := Collect(xs, Split);
    if all != [] {
      assert all[0] in all;
      var e :| e in xs && all[0] in Split(e);
    }
    if e :| e in xs && !Blank(e) {
      assert Split(e)[0] in all;
    }
  }
}
