/** The block of /etc/hosts that a provider manages.
  *
  * A provider owns the lines between its own guards and rewrites them on every update; every other
  * line belongs to somebody else.  Characters are Unicode code points.
  */
module Hosts {
  import opened Common
  import opened StringOrder
  import opened Text

  // ---------- lines ----------

  predicate IsSpace(ch: char) {
    || '\t' <= ch <= '\r' || ch == ' ' || ch == '\U{0085}' || ch == '\U{00A0}' || ch == '\U{1680}'
    || '\U{2000}' <= ch <= '\U{200A}' || ch == '\U{2028}' || ch == '\U{2029}' || ch == '\U{202F}'
    || ch == '\U{205F}' || ch == '\U{3000}'
  }

  function TrimLeft(s: string): string {
    if s != "" && IsSpace(s[0]) then TrimLeft(s[1..]) else s
  }

  function TrimRight(s: string): string {
    if s != "" && IsSpace(s[|s| - 1]) then TrimRight(s[..|s| - 1]) else s
  }

  function TrimSpace(s: string): string {
    TrimRight(TrimLeft(s))
  }

  predicate Blank(line: string) {
    TrimSpace(line) == ""
  }

  predicate OneLine(s: string) {
    Free('\n', s)
  }

  function Lines(text: string): seq<string> {
    Split('\n', text)
  }

  // ---------- guards ----------

  function GuardBegin(key: string): string {
    "# Begin host entries managed by " + key + " - do not edit"
  }

  function GuardEnd(key: string): string {
    "# End host entries managed by " + key
  }

  predicate IsBegin(key: string, line: string) {
    TrimSpace(line) == GuardBegin(key)
  }

  predicate IsEnd(key: string, line: string) {
    TrimSpace(line) == GuardEnd(key)
  }

  /** A begin guard, and no end guard since, among the first `n` lines. */
  ghost predicate Open(key: string, lines: seq<string>, n: nat)
    requires n <= |lines|
  {
    exists j | 0 <= j < n ::
      IsBegin(key, lines[j]) && forall k | j <= k < n :: !IsEnd(key, lines[k])
  }

  /** Line `i` belongs to a block of `key`: to its begin guard, its inside or its end guard. */
  ghost predicate Inside(key: string, lines: seq<string>, i: nat)
    requires i < |lines|
  {
    IsBegin(key, lines[i]) || Open(key, lines, i)
  }

  /** A line that is not the provider's to change. */
  ghost predicate Foreign(key: string, lines: seq<string>, i: nat)
    requires i < |lines|
  {
    !Inside(key, lines, i) && !IsEnd(key, lines[i])
  }

  /** What the scan keeps: the foreign lines, but for one blank line after an end guard. */
  ghost predicate Keeps(key: string, lines: seq<string>, i: nat)
    requires i < |lines|
  {
    Foreign(key, lines, i) && !(Blank(lines[i]) && i > 0 && IsEnd(key, lines[i - 1]))
  }

  ghost function Kept(key: string, lines: seq<string>, n: nat): seq<string>
    requires n <= |lines|
  {
    if n == 0 then []
    else if Keeps(key, lines, n - 1) then Kept(key, lines, n - 1) + [lines[n - 1]]
    else Kept(key, lines, n - 1)
  }

  /** The foreign lines that are not blank. */
  ghost function Others(key: string, lines: seq<string>, n: nat): seq<string>
    requires n <= |lines|
  {
    if n == 0 then []
    else if Foreign(key, lines, n - 1) && !Blank(lines[n - 1]) then Others(key, lines, n - 1) + [lines[n - 1]]
    else Others(key, lines, n - 1)
  }

  function NonBlank(lines: seq<string>): seq<string> {
    if lines == [] then []
    else if Blank(lines[|lines| - 1]) then NonBlank(lines[..|lines| - 1])
    else NonBlank(lines[..|lines| - 1]) + [lines[|lines| - 1]]
  }

  function TrimEmpty(lines: seq<string>): (r: seq<string>)
    ensures r <= lines
    ensures r != [] ==> r[|r| - 1] != ""
  {
    if lines != [] && lines[|lines| - 1] == "" then TrimEmpty(lines[..|lines| - 1]) else lines
  }

  /** The lines after an update that lists `records`. */
  ghost function Rewritten(key: string, lines: seq<string>, records: seq<string>): seq<string> {
    Block(key, TrimEmpty(Kept(key, lines, |lines|)), records)
  }

  function Block(key: string, before: seq<string>, records: seq<string>): seq<string> {
    before + ["", GuardBegin(key)] + records + [GuardEnd(key), ""]
  }

  ghost function RewrittenText(key: string, text: string, records: seq<string>): string {
    Join('\n', Rewritten(key, Lines(text), records))
  }

  /** What the records and the key must not hold: line breaks, and the end guard. */
  predicate Clean(key: string, records: seq<string>) {
    OneLine(key) && forall line | line in records :: OneLine(line) && !IsEnd(key, line)
  }

  // ---------- the scan ----------

  /** No line is a begin guard of one key and an end guard of another; and guards tell keys apart. */
  lemma GuardsDiffer(key: string, other: string)
    ensures GuardBegin(key) != GuardEnd(other)
    ensures GuardBegin(key) == GuardBegin(other) ==> key == other
    ensures GuardEnd(key) == GuardEnd(other) ==> key == other
  {
    assert GuardBegin(key)[2] == 'B' && GuardEnd(other)[2] == 'E';
    if GuardBegin(key) == GuardBegin(other) {
      assert |key| == |other|;
      assert key == GuardBegin(key)[32..32 + |key|] && other == GuardBegin(other)[32..32 + |key|];
    }
    if GuardEnd(key) == GuardEnd(other) {
      assert key == GuardEnd(key)[30..] && other == GuardEnd(other)[30..];
    }
  }

  lemma GuardLine(key: string, line: string)
    ensures !(IsBegin(key, line) && IsEnd(key, line))
    ensures Blank(line) ==> !IsBegin(key, line) && !IsEnd(key, line)
  {
  }

  /** What the scan does with one line, given whether a block is open and whether the line before
    * was an end guard. */
  lemma KeptStep(key: string, lines: seq<string>, i: nat, open: bool, afterEnd: bool)
    requires i < |lines|
    requires open == Open(key, lines, i) && afterEnd == (i > 0 && IsEnd(key, lines[i - 1]))
    ensures afterEnd ==> !open
    ensures Open(key, lines, i + 1) <==> (open || IsBegin(key, lines[i])) && !IsEnd(key, lines[i])
    ensures
      var keep := !open && !IsBegin(key, lines[i]) && !IsEnd(key, lines[i]) && !(afterEnd && Blank(lines[i]));
      Kept(key, lines, i + 1) == Kept(key, lines, i) + if keep then [lines[i]] else []
  {
  }

  method Scan(key: string, lines: seq<string>) returns (out: seq<string>)
    ensures out == Kept(key, lines, |lines|)
  {
    var guardBegin, guardEnd := GuardBegin(key), GuardEnd(key);
    out := [];
    var inGuardBlock, skipBlank := false, false;
    for i := 0 to |lines|
      invariant out == Kept(key, lines, i)
      invariant inGuardBlock == Open(key, lines, i)
      invariant skipBlank == (i > 0 && IsEnd(key, lines[i - 1]))
    {
      var k := TrimSpace(lines[i]);
      KeptStep(key, lines, i, inGuardBlock, skipBlank);
      GuardLine(key, lines[i]);
      if k == "" && skipBlank {
        skipBlank := false;
        continue;
      }
      skipBlank := false;
      if k == guardBegin {
        inGuardBlock := true;
      }
      if !inGuardBlock {
        out := out + [lines[i]];
      }
      if k == guardEnd {
        if !inGuardBlock {
          out := out[..|out| - 1];
        }
        inGuardBlock := false;
        skipBlank := true;
      }
    }
  }

  // ---------- what a rewrite keeps ----------

  lemma {:induction false} AllKept(key: string, lines: seq<string>, n: nat)
    requires n <= |lines| && forall i | 0 <= i < n :: Keeps(key, lines, i)
    ensures Kept(key, lines, n) == lines[..n]
  {
    if n > 0 {
      AllKept(key, lines, n - 1);
      assert lines[..n] == lines[..n - 1] + [lines[n - 1]];
    }
  }

  /** Every line from `m` on is dropped. */
  ghost predicate Drops(key: string, lines: seq<string>, m: nat, n: nat)
    requires n <= |lines|
  {
    forall i | m <= i < n :: !Keeps(key, lines, i)
  }

  lemma {:induction false} NoneKept(key: string, lines: seq<string>, m: nat, n: nat)
    requires m <= n <= |lines| && Drops(key, lines, m, n)
    ensures Kept(key, lines, n) == Kept(key, lines, m)
  {
    if m < n {
      assert Drops(key, lines, m, n - 1) && !Keeps(key, lines, n - 1);
      NoneKept(key, lines, m, n - 1);
    }
  }

  lemma {:induction false} KeptLines(key: string, lines: seq<string>, n: nat)
    requires n <= |lines|
    ensures forall line | line in Kept(key, lines, n) :: line in lines && !IsBegin(key, line) && !IsEnd(key, line)
  {
    if n > 0 {
      KeptLines(key, lines, n - 1);
    }
  }

  lemma {:induction false} KeptAreOthers(key: string, lines: seq<string>, n: nat)
    requires n <= |lines|
    ensures NonBlank(Kept(key, lines, n)) == Others(key, lines, n)
  {
    if n > 0 {
      KeptAreOthers(key, lines, n - 1);
      var kept, line := Kept(key, lines, n - 1), lines[n - 1];
      if Keeps(key, lines, n - 1) {
        assert Kept(key, lines, n) == kept + [line];
        NonBlankAdds(kept, line);
      } else {
        assert Kept(key, lines, n) == kept;
      }
    }
  }

  lemma NonBlankAdds(lines: seq<string>, line: string)
    ensures NonBlank(lines + [line]) == NonBlank(lines) + if Blank(line) then [] else [line]
  {
  }

  lemma {:induction false} NonBlankTrims(lines: seq<string>)
    ensures NonBlank(TrimEmpty(lines)) == NonBlank(lines)
  {
    if lines != [] && lines[|lines| - 1] == "" {
      NonBlankTrims(lines[..|lines| - 1]);
    }
  }

  /** In the rewritten file only the lines before the block, and its blank line, are kept. */
  lemma BlockIsOwn(key: string, before: seq<string>, records: seq<string>)
    requires Clean(key, records)
    requires forall line | line in before :: !IsBegin(key, line) && !IsEnd(key, line)
    ensures
      var lines := Block(key, before, records);
      Kept(key, lines, |lines|) == before + [""]
  {
    var lines := Block(key, before, records);
    var b := |before| + 1;
    GuardLine(key, "");
    assert forall i | 0 <= i < b :: lines[i] in before || lines[i] == "";
    AllKept(key, lines, b);
    assert lines[..b] == before + [""];
    forall i | b <= i < |lines| ensures !Keeps(key, lines, i) {
      LineOfBlock(key, before, records, i);
    }
    NoneKept(key, lines, b, |lines|);
  }

  lemma TrimmedBegin(key: string)
    ensures IsBegin(key, GuardBegin(key))
  {
  }

  lemma LineOfBlock(key: string, before: seq<string>, records: seq<string>, i: nat)
    requires Clean(key, records)
    requires |before| + 1 <= i < |Block(key, before, records)|
    ensures !Keeps(key, Block(key, before, records), i)
  {
    var lines := Block(key, before, records);
    var b := |before| + 1;
    TrimmedBegin(key);
    GuardLine(key, lines[b]);
    if b < i < |lines| - 1 {
      assert forall k | b < k < i :: lines[k] in records;
      assert IsBegin(key, lines[b]) && Open(key, lines, i);
    } else if b < i && !IsEnd(key, lines[i - 1]) {
      assert forall k | b < k < i - 1 :: lines[k] in records;
      assert IsBegin(key, lines[b]) && Open(key, lines, i);
    }
  }

  /** Nothing of an earlier update remains: updating twice is updating once, with the later records.
    * With the same records the second update changes nothing. */
  lemma RewriteTwice(key: string, lines: seq<string>, earlier: seq<string>, records: seq<string>)
    requires Clean(key, earlier)
    ensures Rewritten(key, Rewritten(key, lines, earlier), records) == Rewritten(key, lines, records)
  {
    var kept := Kept(key, lines, |lines|);
    var before := TrimEmpty(kept);
    KeptLines(key, lines, |lines|);
    BlockIsOwn(key, before, earlier);
    assert (before + [""])[..|before|] == before;
    assert TrimEmpty(before + [""]) == TrimEmpty(before) == before;
  }

  lemma BlockIsLines(key: string, before: seq<string>, records: seq<string>)
    requires Clean(key, records) && forall line | line in before :: OneLine(line)
    ensures forall line | line in Block(key, before, records) :: OneLine(line)
  {
    assert OneLine(GuardBegin(key)) && OneLine(GuardEnd(key)) && OneLine("");
  }

  lemma RewrittenIsLines(key: string, lines: seq<string>, records: seq<string>)
    requires Clean(key, records) && forall line | line in lines :: OneLine(line)
    ensures forall line | line in Rewritten(key, lines, records) :: OneLine(line)
  {
    KeptLines(key, lines, |lines|);
    BlockIsLines(key, TrimEmpty(Kept(key, lines, |lines|)), records);
  }

  lemma UpdateTwice(key: string, text: string, earlier: seq<string>, records: seq<string>)
    requires Clean(key, earlier)
    ensures RewrittenText(key, RewrittenText(key, text, earlier), records) == RewrittenText(key, text, records)
  {
    var lines := Lines(text);
    RewrittenIsLines(key, lines, earlier);
    SplitJoin('\n', Rewritten(key, lines, earlier));
    RewriteTwice(key, lines, earlier, records);
  }

  /** The lines of everybody else that are not blank stay, as they are and in their order; and what
    * is left of the provider's own is one block with `records`. */
  lemma UpdateKeepsOthers(key: string, text: string, records: seq<string>)
    requires Clean(key, records)
    ensures
      var lines, lines' := Lines(text), Lines(RewrittenText(key, text, records));
      && Others(key, lines', |lines'|) == Others(key, lines, |lines|)
      && exists before :: lines' == Block(key, before, records) && NonBlank(before) == Others(key, lines, |lines|)
  {
    var lines := Lines(text);
    var lines' := Rewritten(key, lines, records);
    RewrittenIsLines(key, lines, records);
    SplitJoin('\n', lines');
    var kept := Kept(key, lines, |lines|);
    var before := TrimEmpty(kept);
    KeptLines(key, lines, |lines|);
    BlockIsOwn(key, before, records);
    KeptAreOthers(key, lines, |lines|);
    KeptAreOthers(key, lines', |lines'|);
    NonBlankTrims(kept);
    NonBlankAdds(before, "");
    assert lines' == Block(key, before, records);
  }

  /** Guards of other keys are nothing but lines to a provider. */
  lemma OtherKeysAreForeign(key: string, other: string, line: string)
    requires key != other && (IsBegin(other, line) || IsEnd(other, line))
    ensures !IsBegin(key, line) && !IsEnd(key, line) && !Blank(line)
  {
    GuardsDiffer(key, other);
    GuardsDiffer(other, key);
    GuardLine(other, line);
  }

  // ---------- keys ----------

  lemma TrimRightShortens(s: string)
    requires s != ""
    ensures TrimRight(s) == s <==> !IsSpace(s[|s| - 1])
  {
    if IsSpace(s[|s| - 1]) {
      TrimRightIsPrefix(s[..|s| - 1]);
    }
  }

  lemma {:induction false} TrimRightIsPrefix(s: string)
    ensures |TrimRight(s)| <= |s|
  {
    if s != "" && IsSpace(s[|s| - 1]) {
      TrimRightIsPrefix(s[..|s| - 1]);
    }
  }

  /** The end guard that an update writes is recognised by the next one exactly for keys that are not
    * empty and do not end in white space. */
  lemma EndGuardRecognised(key: string)
    ensures IsEnd(key, GuardEnd(key)) <==> key != "" && !IsSpace(key[|key| - 1])
  {
    var g := GuardEnd(key);
    assert g[0] == '#' && TrimLeft(g) == g;
    TrimRightShortens(g);
    if key != "" {
      assert g[|g| - 1] == key[|key| - 1];
    } else {
      assert g[|g| - 1] == ' ';
    }
  }

  /** A line that somebody appends after the block stays somebody else's exactly if the end guard is
    * recognised; otherwise the next update takes it for a record and drops it. */
  lemma AppendedLineIsForeign(key: string, before: seq<string>, records: seq<string>, line: string)
    requires Clean(key, records) && !IsBegin(key, line) && !IsEnd(key, line)
    ensures
      var lines := before + ["", GuardBegin(key)] + records + [GuardEnd(key), line, ""];
      Foreign(key, lines, |lines| - 2) <==> IsEnd(key, GuardEnd(key))
  {
    var lines := before + ["", GuardBegin(key)] + records + [GuardEnd(key), line, ""];
    var b, i := |before| + 1, |lines| - 2;
    assert lines[b] == GuardBegin(key) && lines[i - 1] == GuardEnd(key) && lines[i] == line;
    if !IsEnd(key, GuardEnd(key)) {
      TrimmedBegin(key);
      GuardLine(key, lines[b]);
      assert forall k | b < k < i - 1 :: lines[k] in records;
      assert IsBegin(key, lines[b]) && Open(key, lines, i);
    }
  }

  // ---------- the records ----------

  /** The first `n` of sorted names, each once. */
  function Distinct(hosts: seq<string>, n: nat): (r: seq<string>)
    requires n <= |hosts|
    ensures n > 0 ==> r != []
  {
    if n == 0 then []
    else if n > 1 && hosts[n - 2] == hosts[n - 1] then Distinct(hosts, n - 1)
    else Distinct(hosts, n - 1) + [hosts[n - 1]]
  }

  function Spaced(words: seq<string>): string {
    if words == [] then ""
    else if |words| == 1 then words[0]
    else Spaced(words[..|words| - 1]) + " " + words[|words| - 1]
  }

  lemma SpacedAdds(words: seq<string>, word: string)
    ensures Spaced(words + [word]) == if words == [] then word else Spaced(words) + " " + word
  {
  }

  lemma LineGrows(prefix: string, words: seq<string>, word: string)
    ensures prefix + Spaced(words + [word])
         == (if words == [] then prefix + Spaced(words) else prefix + Spaced(words) + " ") + word
  {
    SpacedAdds(words, word);
  }

  /** The line of one address. */
  function Line(addr: string, hosts: seq<string>): string {
    addr + "\t" + Spaced(Distinct(Sort(hosts), |Sort(hosts)|))
  }

  method Render(addr: string, hosts: seq<string>) returns (line: string)
    ensures line == Line(addr, hosts)
  {
    var sorted := Sort(hosts);
    line := addr + "\t";
    for i := 0 to |sorted|
      invariant line == addr + "\t" + Spaced(Distinct(sorted, i))
    {
      if i != 0 && sorted[i - 1] == sorted[i] {
        continue;
      }
      LineGrows(addr + "\t", Distinct(sorted, i), sorted[i]);
      if i != 0 {
        line := line + " ";
      }
      line := line + sorted[i];
    }
  }

  lemma {:induction false} DistinctIsStrict(hosts: seq<string>, n: nat)
    requires n <= |hosts| && Sorted(hosts)
    ensures Strict(Distinct(hosts, n))
    ensures forall h :: h in Distinct(hosts, n) <==> h in hosts[..n]
  {
    if n > 0 {
      DistinctIsStrict(hosts, n - 1);
      var prior, last := hosts[..n - 1], hosts[n - 1];
      assert hosts[..n] == prior + [last];
      if n > 1 && hosts[n - 2] != last {
        forall h | h in prior ensures Less(h, last) {
          LaterIsGreater(hosts, n - 1, h);
        }
      }
    }
  }

  lemma LaterIsGreater(hosts: seq<string>, n: nat, h: string)
    requires 0 < n < |hosts| && Sorted(hosts) && hosts[n - 1] != hosts[n] && h in hosts[..n]
    ensures Less(h, hosts[n])
  {
    var k :| 0 <= k < n && hosts[k] == h;
    if h == hosts[n] {
      Reflexive(h);
      Antisymmetric(hosts[n - 1], hosts[n]);
    }
  }

  /** The line depends on which names there are, not on their order or how often they are listed. */
  lemma LineOfSet(addr: string, a: seq<string>, b: seq<string>)
    requires forall h :: h in a <==> h in b
    ensures Line(addr, a) == Line(addr, b)
  {
    var s, t := Sort(a), Sort(b);
    DistinctIsStrict(s, |s|);
    DistinctIsStrict(t, |t|);
    forall h ensures h in Distinct(s, |s|) <==> h in Distinct(t, |t|) {
      assert h in s <==> h in multiset(s);
      assert h in a <==> h in multiset(a);
      assert h in t <==> h in multiset(t);
      assert h in b <==> h in multiset(b);
      assert s[..|s|] == s && t[..|t|] == t;
    }
    StrictUnique(Distinct(s, |s|), Distinct(t, |t|));
  }

  type Table = map<string, seq<string>>

  /** The addresses among `addrs` whose line is `line`. */
  ghost function LineOwners(m: Table, addrs: set<string>, line: string): set<string>
    requires addrs <= m.Keys
  {
    set a | a in addrs && Line(a, m[a]) == line
  }

  /** The lines of all addresses, sorted. */
  ghost predicate IsListing(lines: seq<string>, m: Table) {
    Sorted(lines) && forall line :: multiset(lines)[line] == |LineOwners(m, m.Keys, line)|
  }

  /** The lines of all addresses but those in `todo`, in any order. */
  ghost predicate Lists(lines: seq<string>, m: Table, todo: set<string>) {
    forall line :: multiset(lines)[line] == |LineOwners(m, m.Keys - todo, line)|
  }

  lemma OneMoreOwner(m: Table, todo: set<string>, addr: string, line: string)
    requires addr in todo && addr in m
    ensures |LineOwners(m, m.Keys - (todo - {addr}), line)|
         == |LineOwners(m, m.Keys - todo, line)| + if line == Line(addr, m[addr]) then 1 else 0
  {
    var before := LineOwners(m, m.Keys - todo, line);
    var after := LineOwners(m, m.Keys - (todo - {addr}), line);
    if line == Line(addr, m[addr]) {
      assert after == before + {addr};
    } else {
      assert after == before;
    }
  }

  lemma OneMoreLine(lines: seq<string>, m: Table, todo: set<string>, addr: string)
    requires Lists(lines, m, todo) && addr in todo && addr in m
    ensures Lists(lines + [Line(addr, m[addr])], m, todo - {addr})
  {
    var more := lines + [Line(addr, m[addr])];
    forall line ensures multiset(more)[line] == |LineOwners(m, m.Keys - (todo - {addr}), line)| {
      OneMoreOwner(m, todo, addr, line);
      assert multiset(lines)[line] == |LineOwners(m, m.Keys - todo, line)|;
    }
  }

  method RenderAll(m: Table) returns (lines: seq<string>)
    ensures IsListing(lines, m)
  {
    lines := [];
    var todo := m.Keys;
    while todo != {}
      invariant todo <= m.Keys
      invariant Lists(lines, m, todo)
    {
      var addr :| addr in todo;
      var line := Render(addr, m[addr]);
      OneMoreLine(lines, m, todo, addr);
      lines := lines + [line];
      todo := todo - {addr};
    }
    assert m.Keys - todo == m.Keys;
    assert forall line :: multiset(lines)[line] == |LineOwners(m, m.Keys, line)|;
    lines := Sort(lines);
  }

  /** Tables that give every address the same names. */
  ghost predicate SameHosts(m: Table, n: Table) {
    m.Keys == n.Keys && forall a | a in m :: forall h :: h in m[a] <==> h in n[a]
  }

  /** The listing does not depend on the order in which tables are walked or names were added. */
  lemma ListingsAgree(l: seq<string>, m: Table, l': seq<string>, m': Table)
    requires IsListing(l, m) && IsListing(l', m') && SameHosts(m, m')
    ensures l == l'
  {
    forall line ensures multiset(l)[line] == multiset(l')[line] {
      forall a | a in m ensures Line(a, m[a]) == Line(a, m'[a]) {
        LineOfSet(a, m[a], m'[a]);
      }
      assert LineOwners(m, m.Keys, line) == LineOwners(m', m'.Keys, line);
    }
    SortedUnique(l, l');
  }

  // ---------- primary names and fallbacks ----------

  ghost predicate Named(primary: Table, host: string) {
    exists a | a in primary :: host in primary[a]
  }

  /** `host` falls back to `addr`: only a host that no primary names does. */
  ghost predicate FallsBack(primary: Table, fallbacks: Table, host: string, addr: string) {
    host in fallbacks && addr in fallbacks[host] && !Named(primary, host)
  }

  ghost predicate Resolves(primary: Table, fallbacks: Table, done: set<string>, host: string, addr: string) {
    (addr in primary && host in primary[addr]) || (host in done && FallsBack(primary, fallbacks, host, addr))
  }

  /** `m` merges the primary names with the fallbacks of the hosts in `done`. */
  ghost predicate Merges(m: Table, primary: Table, fallbacks: Table, done: set<string>) {
    && (forall a :: a in m <==> a in primary || exists h | h in done :: FallsBack(primary, fallbacks, h, a))
    && (forall a | a in m :: forall h :: h in m[a] <==> Resolves(primary, fallbacks, done, h, a))
  }

  lemma MergesAgree(m: Table, m': Table, primary: Table, fallbacks: Table)
    requires Merges(m, primary, fallbacks, fallbacks.Keys) && Merges(m', primary, fallbacks, fallbacks.Keys)
    ensures SameHosts(m, m')
  {
  }

  /** `r` is `m` with `host` added at `ips`. */
  ghost predicate Appended(m: Table, host: string, ips: seq<string>, r: Table) {
    && (forall a :: a in r <==> a in m || a in ips)
    && (forall a | a in r :: forall h :: h in r[a] <==> (a in m && h in m[a]) || (h == host && a in ips))
  }

  lemma MergeOneMore(m: Table, primary: Table, fallbacks: Table, done: set<string>, host: string, m': Table)
    requires Merges(m, primary, fallbacks, done) && host in fallbacks && host !in done
    requires if Named(primary, host) then m' == m else Appended(m, host, fallbacks[host], m')
    ensures Merges(m', primary, fallbacks, done + {host})
  {
  }

  method AppendHost(m: Table, host: string, ips: seq<string>) returns (r: Table)
    ensures Appended(m, host, ips, r)
  {
    r := m;
    for i := 0 to |ips|
      invariant Appended(m, host, ips[..i], r)
    {
      assert ips[..i + 1] == ips[..i] + [ips[i]];
      r := r[ips[i] := (if ips[i] in r then r[ips[i]] else []) + [host]];
    }
    assert ips[..|ips|] == ips;
  }

  /** One attempt at writing the file, and its contents afterwards. */
  datatype Attempt =
    | WriteFails(contents: string)
    | RereadFails(contents: string)
    | Reread(contents: string)

  /** The file was read back as it was written. */
  predicate Succeeds(outcome: Attempt, b: string) {
    outcome == Reread(b)
  }

  class Provider {
    const key: string
    var primary: Table
    var fallbacks: Table
    /** The contents of the hosts file. */
    var file: string

    constructor (key: string, file: string)
      ensures this.key == key && this.file == file && primary == map[] && fallbacks == map[]
    {
      this.key := key;
      this.file := file;
      primary := map[];
      fallbacks := map[];
    }

    method Merge() returns (m: Table)
      ensures Merges(m, primary, fallbacks, fallbacks.Keys)
    {
      m := map[];
      var hostExists: set<string> := {};
      var todo := primary.Keys;
      while todo != {}
        invariant todo <= primary.Keys
        invariant m.Keys == primary.Keys - todo && forall a | a in m :: m[a] == primary[a]
        invariant forall h :: h in hostExists <==> exists a | a in primary.Keys - todo :: h in primary[a]
      {
        var addr :| addr in todo;
        m := m[addr := primary[addr]];
        hostExists := hostExists + (set h | h in primary[addr]);
        todo := todo - {addr};
      }
      assert forall h :: h in hostExists <==> Named(primary, h);
      todo := fallbacks.Keys;
      while todo != {}
        invariant todo <= fallbacks.Keys
        invariant Merges(m, primary, fallbacks, fallbacks.Keys - todo)
      {
        var host :| host in todo;
        ghost var done := fallbacks.Keys - todo;
        assert fallbacks.Keys - (todo - {host}) == done + {host};
        ghost var before := m;
        if host !in hostExists {
          m := AppendHost(m, host, fallbacks[host]);
        }
        MergeOneMore(before, primary, fallbacks, done, host, m);
        todo := todo - {host};
      }
      assert fallbacks.Keys - todo == fallbacks.Keys;
    }

    /** pseudoAtomicWrite: write, wait, read again, and give up after ten attempts.  Somebody else may
      * write in between: `outcomes` says what comes of each attempt. */
    method PseudoAtomicWrite(b: string, outcomes: nat -> Attempt) returns (ok: bool, attempt: nat)
      modifies this`file
      ensures ok <==> exists i :: 1 <= i <= 10 && Succeeds(outcomes(i), b)
      ensures ok ==>
        1 <= attempt <= 10 && Succeeds(outcomes(attempt), b) && forall i | 1 <= i < attempt :: !Succeeds(outcomes(i), b)
      ensures file == outcomes(if ok then attempt else 10).contents
    {
      attempt, ok := 0, false;
      while attempt < 11
        invariant attempt <= 10 && !ok && forall i | 1 <= i <= attempt :: !Succeeds(outcomes(i), b)
        invariant attempt >= 1 ==> file == outcomes(attempt).contents
      {
        attempt := attempt + 1;
        if attempt > 10 {
          return;
        }
        var outcome := outcomes(attempt);
        file := outcome.contents;
        if outcome.Reread? && outcome.contents == b {
          return true, attempt;
        }
      }
    }

    /** Rewrite the file, if it can be read.  `merged` is what the provider's fields say, and `records`
      * its lines. */
    method Update(readable: bool, outcomes: nat -> Attempt)
      returns (ok: bool, ghost merged: Table, ghost records: seq<string>)
      modifies this`file
      ensures Merges(merged, primary, fallbacks, fallbacks.Keys) && IsListing(records, merged)
      ensures !readable ==> !ok && file == old(file)
      ensures ok ==> file == RewrittenText(key, old(file), records)
      ensures readable && old(file) == RewrittenText(key, old(file), records) ==> ok && file == old(file)
      ensures readable && !ok ==>
        forall i | 1 <= i <= 10 :: !Succeeds(outcomes(i), RewrittenText(key, old(file), records))
    {
      var m := Merge();
      var lines := RenderAll(m);
      merged, records := m, lines;
      if !readable {
        return false, merged, records;
      }
      var data := file;
      var out := Scan(key, Lines(data));
      while out != [] && out[|out| - 1] == ""
        invariant TrimEmpty(out) == TrimEmpty(Kept(key, Lines(data), |Lines(data)|))
      {
        out := out[..|out| - 1];
      }
      out := out + [""];
      out := out + [GuardBegin(key)] + lines + [GuardEnd(key), ""];
      assert out == Rewritten(key, Lines(data), lines);
      var updated := Join('\n', out);
      if updated == data {
        return true, merged, records;
      }
      var attempts;
      ok, attempts := PseudoAtomicWrite(updated, outcomes);
    }

    method AddFallbacks(dnsFallbacks: Table, readable: bool, outcomes: nat -> Attempt)
      returns (ok: bool, ghost merged: Table, ghost records: seq<string>)
      modifies this
      ensures primary == old(primary) && fallbacks == dnsFallbacks
      ensures Merges(merged, primary, fallbacks, fallbacks.Keys) && IsListing(records, merged)
      ensures (!readable ==> !ok && file == old(file)) && (ok ==> file == RewrittenText(key, old(file), records))
      ensures readable && !ok ==>
        forall i | 1 <= i <= 10 :: !Succeeds(outcomes(i), RewrittenText(key, old(file), records))
    {
      fallbacks := dnsFallbacks;
      ok, merged, records := Update(readable, outcomes);
    }

    method UpdateHosts(addressToHosts: Table, readable: bool, outcomes: nat -> Attempt)
      returns (ok: bool, ghost merged: Table, ghost records: seq<string>)
      modifies this
      ensures primary == addressToHosts && fallbacks == old(fallbacks)
      ensures Merges(merged, primary, fallbacks, fallbacks.Keys) && IsListing(records, merged)
      ensures (!readable ==> !ok && file == old(file)) && (ok ==> file == RewrittenText(key, old(file), records))
      ensures readable && !ok ==>
        forall i | 1 <= i <= 10 :: !Succeeds(outcomes(i), RewrittenText(key, old(file), records))
    {
      primary := addressToHosts;
      ok, merged, records := Update(readable, outcomes);
    }
  }

  /** Whatever order tables are walked in, the file after an update is the same. */
  lemma UpdateIsDetermined(key: string, text: string, primary: Table, fallbacks: Table,
                           m: Table, l: seq<string>, m': Table, l': seq<string>)
    requires Merges(m, primary, fallbacks, fallbacks.Keys) && IsListing(l, m)
    requires Merges(m', primary, fallbacks, fallbacks.Keys) && IsListing(l', m')
    ensures l == l' && RewrittenText(key, text, l) == RewrittenText(key, text, l')
  {
    MergesAgree(m, m', primary, fallbacks);
    ListingsAgree(l, m, l', m');
  }

  // ---------- records that are clean ----------

  lemma {:induction false} SpacedOneLine(words: seq<string>)
    requires forall w | w in words :: OneLine(w)
    ensures OneLine(Spaced(words))
  {
    if words != [] {
      SpacedOneLine(words[..|words| - 1]);
      assert words[|words| - 1] in words;
    }
  }

  predicate PlainAddress(addr: string) {
    addr != "" && !IsSpace(addr[0]) && addr[0] != '#' && OneLine(addr)
  }

  lemma {:induction false} TrimKeepsFirst(s: string)
    requires s != "" && !IsSpace(s[0])
    ensures TrimRight(s) != "" && TrimRight(s)[0] == s[0]
  {
    if IsSpace(s[|s| - 1]) {
      TrimKeepsFirst(s[..|s| - 1]);
    }
  }

  lemma LineIsClean(key: string, addr: string, hosts: seq<string>)
    requires PlainAddress(addr) && forall h | h in hosts :: OneLine(h)
    ensures OneLine(Line(addr, hosts)) && !IsEnd(key, Line(addr, hosts))
  {
    var sorted := Sort(hosts);
    forall h | h in Distinct(sorted, |sorted|) ensures OneLine(h) {
      DistinctIsStrict(sorted, |sorted|);
      assert h in multiset(sorted);
      assert h in multiset(hosts);
    }
    SpacedOneLine(Distinct(sorted, |sorted|));
    TrimKeepsFirst(Line(addr, hosts));
  }

  /** Addresses that look like addresses, and names without line breaks, make clean records. */
  lemma ListingIsClean(key: string, lines: seq<string>, m: Table)
    requires IsListing(lines, m) && OneLine(key)
    requires forall a | a in m :: PlainAddress(a) && forall h | h in m[a] :: OneLine(h)
    ensures Clean(key, lines)
  {
    forall line | line in lines ensures OneLine(line) && !IsEnd(key, line) {
      assert line in multiset(lines);
      var a := AnyOf(LineOwners(m, m.Keys, line));
      LineIsClean(key, a, m[a]);
    }
  }
}
