/**
 * The text summary of a deployed cluster (`SimpleFormatter.format`): a header with the
 * cluster's name and subnet, a table header, then one fixed-width row per node sorted by
 * hostname, every line ended by a newline.
 */
module Format {
  import opened Strings

  /** What the formatter reads of a deployed node: hostname, address and container name. */
  datatype NodeInfo = NodeInfo(hostname: string, ipAddress: string, containerName: string)

  /**
   * What the formatter reads of a deployed cluster: its name, its network's subnet, and the
   * values of its `nodes` dictionary in iteration order.
   */
  datatype DeployedCluster = DeployedCluster(name: string, subnet: string, nodes: seq<NodeInfo>)

  /** `'  {:15}{:16}{:25}'.format(a, b, c)`. */
  function Row(a: string, b: string, c: string): (r: string)
    ensures |r| == 2 + (if |a| < 15 then 15 else |a|) + (if |b| < 16 then 16 else |b|) + (if |c| < 25 then 25 else |c|)
    ensures r[..2] == "  "
  {
    "  " + PadRight(a, 15) + PadRight(b, 16) + PadRight(c, 25)
  }

  /** The six lines above the node rows. */
  function Header(c: DeployedCluster): seq<string>
  {
    ["Cluster: " + c.name, Repeat('-', 24), "Network: " + c.subnet, "",
     Row("hostname", "ip_address", "container"), "  " + Repeat('-', 48)]
  }

  /** The row of one node. */
  function NodeRow(n: NodeInfo): string
  {
    Row(n.hostname, n.ipAddress, n.containerName)
  }

  /** The rows of the nodes, in the given order. */
  function NodeRows(s: seq<NodeInfo>): (r: seq<string>)
    ensures |r| == |s| && forall i :: 0 <= i < |s| ==> r[i] == NodeRow(s[i])
  {
    seq(|s|, i requires 0 <= i < |s| => NodeRow(s[i]))
  }

  /** Ascending by hostname, as `sorted(..., key=attrgetter('hostname'))` leaves a list. */
  predicate SortedByHostname(s: seq<NodeInfo>)
  {
    forall i, j :: 0 <= i < j < |s| ==> Le(s[i].hostname, s[j].hostname)
  }

  /** Inserts a node before the first node whose hostname is not smaller. */
  function InsertByHostname(n: NodeInfo, s: seq<NodeInfo>): (r: seq<NodeInfo>)
    ensures multiset(r) == multiset(s) + multiset{n}
  {
    if s == [] then [n]
    else if Le(n.hostname, s[0].hostname) then [n] + s
    else
      assert s == [s[0]] + s[1..];
      [s[0]] + InsertByHostname(n, s[1..])
  }

  /** Inserting into a sorted list keeps it sorted. */
  lemma {:induction false} InsertSorted(n: NodeInfo, s: seq<NodeInfo>)
    requires SortedByHostname(s)
    ensures SortedByHostname(InsertByHostname(n, s))
  {
    if s == [] {
    } else if Le(n.hostname, s[0].hostname) {
      InsertAhead(n, s);
    } else {
      assert SortedByHostname(s[1..]);
      InsertSorted(n, s[1..]);
      InsertBehind(n, s);
    }
  }

  /** A node no later than the head of a sorted list goes in front and keeps it sorted. */
  lemma InsertAhead(n: NodeInfo, s: seq<NodeInfo>)
    requires SortedByHostname(s) && s != [] && Le(n.hostname, s[0].hostname)
    ensures SortedByHostname([n] + s)
  {
    forall j | 0 <= j < |s|
      ensures Le(n.hostname, s[j].hostname)
    {
      if j > 0 {
        LeTransitive(n.hostname, s[0].hostname, s[j].hostname);
      }
    }
    SortedCons(n, s);
  }

  /** A node later than the head of a sorted list goes behind it, keeping the list sorted. */
  lemma InsertBehind(n: NodeInfo, s: seq<NodeInfo>)
    requires SortedByHostname(s) && s != [] && !Le(n.hostname, s[0].hostname)
    requires SortedByHostname(InsertByHostname(n, s[1..]))
    ensures SortedByHostname(InsertByHostname(n, s))
  {
    var rest := InsertByHostname(n, s[1..]);
    assert InsertByHostname(n, s) == [s[0]] + rest;
    assert forall i :: 0 <= i < |s[1..]| ==> Le(s[0].hostname, s[1..][i].hostname) by {
      forall i | 0 <= i < |s[1..]|
        ensures Le(s[0].hostname, s[1..][i].hostname)
      {
        assert s[1..][i] == s[i + 1];
      }
    }
    LeTotal(n.hostname, s[0].hostname);
    BoundAfterInsert(s[0].hostname, n, s[1..], rest);
    SortedCons(s[0], rest);
  }

  /** A lower bound on a node and on a list bounds every node of their permutation too. */
  lemma BoundAfterInsert(lo: string, n: NodeInfo, t: seq<NodeInfo>, r: seq<NodeInfo>)
    requires multiset(r) == multiset([n] + t)
    requires Le(lo, n.hostname)
    requires forall i :: 0 <= i < |t| ==> Le(lo, t[i].hostname)
    ensures forall i :: 0 <= i < |r| ==> Le(lo, r[i].hostname)
  {
    var others := [n] + t;
    forall i | 0 <= i < |others|
      ensures Le(lo, others[i].hostname)
    {
      if i > 0 {
        assert others[i] == t[i - 1];
      }
    }
    BoundedByMultiset(lo, r, others);
  }

  /** A node no later than every node of a sorted list can go in front of it. */
  lemma SortedCons(x: NodeInfo, s: seq<NodeInfo>)
    requires SortedByHostname(s)
    requires forall i :: 0 <= i < |s| ==> Le(x.hostname, s[i].hostname)
    ensures SortedByHostname([x] + s)
  {
    var r := [x] + s;
    forall i, j | 0 <= i < j < |r|
      ensures Le(r[i].hostname, r[j].hostname)
    {
      assert r[j] == s[j - 1];
      if i > 0 {
        assert r[i] == s[i - 1];
      }
    }
  }

  /** A lower bound on every hostname carries over to a permutation. */
  lemma BoundedByMultiset(lo: string, a: seq<NodeInfo>, b: seq<NodeInfo>)
    requires multiset(a) == multiset(b)
    requires forall i :: 0 <= i < |b| ==> Le(lo, b[i].hostname)
    ensures forall i :: 0 <= i < |a| ==> Le(lo, a[i].hostname)
  {
    forall i | 0 <= i < |a|
      ensures Le(lo, a[i].hostname)
    {
      assert a[i] in multiset(b);
      var j :| 0 <= j < |b| && b[j] == a[i];
    }
  }

  /** `sorted(nodes, key=attrgetter('hostname'))`: the same nodes, ascending by hostname. */
  function SortByHostname(s: seq<NodeInfo>): (r: seq<NodeInfo>)
    ensures SortedByHostname(r)
    ensures multiset(r) == multiset(s)
  {
    if s == [] then []
    else
      assert s == [s[0]] + s[1..];
      InsertSorted(s[0], SortByHostname(s[1..]));
      InsertByHostname(s[0], SortByHostname(s[1..]))
  }

  /** Two ascending arrangements of the same nodes with distinct hostnames start alike. */
  lemma SortedHeadsEqual(a: seq<NodeInfo>, b: seq<NodeInfo>)
    requires SortedByHostname(a) && SortedByHostname(b) && multiset(a) == multiset(b)
    requires forall i, j :: 0 <= i < j < |b| ==> b[i].hostname != b[j].hostname
    requires a != []
    ensures b != [] && a[0] == b[0]
  {
    assert |b| == |multiset(b)| == |multiset(a)| == |a|;
    assert a[0] in multiset(b) && b[0] in multiset(a);
    var k :| 0 <= k < |b| && b[k] == a[0];
    var m :| 0 <= m < |a| && a[m] == b[0];
    if m > 0 {
      assert Le(a[0].hostname, a[m].hostname);
    } else {
      LeReflexive(a[0].hostname);
    }
    if k > 0 {
      assert Le(b[0].hostname, b[k].hostname);
    } else {
      LeReflexive(b[0].hostname);
    }
    LeAntisymmetric(a[0].hostname, b[0].hostname);
  }

  /** Removing the first node keeps a list ascending. */
  lemma SortedTail(s: seq<NodeInfo>)
    requires SortedByHostname(s) && s != []
    ensures SortedByHostname(s[1..])
  {
    forall i, j | 0 <= i < j < |s| - 1
      ensures Le(s[1..][i].hostname, s[1..][j].hostname)
    {
      assert s[1..][i] == s[i + 1] && s[1..][j] == s[j + 1];
    }
  }

  /** Two lists with the same nodes and the same first node have the same remaining nodes. */
  lemma SameTailNodes(a: seq<NodeInfo>, b: seq<NodeInfo>)
    requires a != [] && b != [] && a[0] == b[0] && multiset(a) == multiset(b)
    ensures multiset(a[1..]) == multiset(b[1..])
  {
    assert a == [a[0]] + a[1..] && b == [b[0]] + b[1..];
    assert multiset(a) == multiset{a[0]} + multiset(a[1..]);
    assert multiset(b) == multiset{a[0]} + multiset(b[1..]);
    assert forall x :: multiset(a[1..])[x] == multiset(a)[x] - multiset{a[0]}[x];
    assert forall x :: multiset(b[1..])[x] == multiset(b)[x] - multiset{a[0]}[x];
  }

  /**
   * With distinct hostnames there is only one order sorting can produce: any ascending
   * arrangement of the same nodes is the sorted list.
   */
  lemma {:induction false} SortedByHostnameUnique(a: seq<NodeInfo>, b: seq<NodeInfo>)
    requires SortedByHostname(a) && SortedByHostname(b) && multiset(a) == multiset(b)
    requires forall i, j :: 0 <= i < j < |b| ==> b[i].hostname != b[j].hostname
    ensures a == b
  {
    if a == [] {
      assert |b| == |multiset(b)| == 0;
    } else {
      SortedHeadsEqual(a, b);
      SortedTail(a);
      SortedTail(b);
      SameTailNodes(a, b);
      assert forall i, j :: 0 <= i < j < |b| - 1 ==> b[1..][i].hostname != b[1..][j].hostname by {
        forall i, j | 0 <= i < j < |b| - 1
          ensures b[1..][i].hostname != b[1..][j].hostname
        {
          assert b[1..][i] == b[i + 1] && b[1..][j] == b[j + 1];
        }
      }
      SortedByHostnameUnique(a[1..], b[1..]);
    }
  }

  /** The lines of the summary: the header, the sorted node rows, and an empty last line. */
  function Lines(c: DeployedCluster): seq<string>
  {
    Header(c) + NodeRows(SortByHostname(c.nodes)) + [""]
  }

  /**
   * The summary has the six header lines, then one row per node in ascending hostname
   * order, then an empty line.
   */
  lemma LinesLayout(c: DeployedCluster)
    ensures |Lines(c)| == |c.nodes| + 7
    ensures Lines(c)[..6] == Header(c) && Lines(c)[|c.nodes| + 6] == ""
    ensures forall i :: 0 <= i < |c.nodes| ==> Lines(c)[i + 6] == NodeRow(SortByHostname(c.nodes)[i])
  {
    var sorted := SortByHostname(c.nodes);
    assert |sorted| == |c.nodes| by {
      assert |multiset(sorted)| == |multiset(c.nodes)|;
    }
    LayoutOf(Header(c), NodeRows(sorted));
  }

  /** Six header lines, the rows, and a final empty line. */
  lemma LayoutOf(h: seq<string>, rows: seq<string>)
    requires |h| == 6
    ensures |h + rows + [""]| == |rows| + 7
    ensures (h + rows + [""])[..6] == h && (h + rows + [""])[|rows| + 6] == ""
    ensures forall i :: 0 <= i < |rows| ==> (h + rows + [""])[i + 6] == rows[i]
  {
  }

  /**
   * `SimpleFormatter.format`: six lines assigned by index, the node rows appended, then an
   * empty line, all joined with newlines.
   */
  method FormatCluster(c: DeployedCluster) returns (text: string)
    ensures text == Join(Lines(c), '\n')
  {
    var lines: seq<string> := seq(6, _ => "");
    lines := lines[0 := "Cluster: " + c.name];
    lines := lines[1 := Repeat('-', 24)];
    lines := lines[2 := "Network: " + c.subnet];
    lines := lines[3 := ""];
    lines := lines[4 := Row("hostname", "ip_address", "container")];
    lines := lines[5 := "  " + Repeat('-', 48)];
    assert lines == Header(c);
    var sorted := SortByHostname(c.nodes);
    lines := lines + NodeRows(sorted);
    lines := lines + [""];
    text := Join(lines, '\n');
  }

  /** The width of a padded field: the width asked for, or the text's own when longer. */
  function Width(s: string, w: nat): nat
  {
    if |s| < w then w else |s|
  }

  /**
   * A row holds each field, left-aligned at its column and never truncated, with spaces
   * up to the next column.
   */
  lemma RowColumns(a: string, b: string, c: string)
    ensures var r := Row(a, b, c);
      var ca := 2;
      var cb := ca + Width(a, 15);
      var cc := cb + Width(b, 16);
      && |r| == cc + Width(c, 25)
      && r[ca..ca + |a|] == a && r[cb..cb + |b|] == b && r[cc..cc + |c|] == c
      && (forall i :: ca + |a| <= i < cb ==> r[i] == ' ')
      && (forall i :: cb + |b| <= i < cc ==> r[i] == ' ')
      && (forall i :: cc + |c| <= i < |r| ==> r[i] == ' ')
  {
    var pa := PadRight(a, 15);
    var pb := PadRight(b, 16);
    var pc := PadRight(c, 25);
    var r := Row(a, b, c);
    assert |pa| == Width(a, 15) && |pb| == Width(b, 16) && |pc| == Width(c, 25);
    PaddedField(r, "  ", a, 15, pb + pc);
    PaddedField(r, "  " + pa, b, 16, pc);
    PaddedField(r, "  " + pa + pb, c, 25, "");
  }

  /** A field padded to its width, wherever it sits in a line, starts with the field and ends in spaces. */
  lemma PaddedField(r: string, pre: string, s: string, w: nat, post: string)
    requires r == pre + PadRight(s, w) + post
    ensures r[|pre|..|pre| + |s|] == s
    ensures forall i :: |pre| + |s| <= i < |pre| + Width(s, w) ==> r[i] == ' '
  {
    var p := PadRight(s, w);
    assert r[|pre|..|pre| + |s|] == p[..|s|];
    forall i | |pre| + |s| <= i < |pre| + Width(s, w)
      ensures r[i] == ' '
    {
      assert r[i] == p[i - |pre|];
    }
  }


  /** Joining lines that end with an empty one ends the text with the separator. */
  lemma {:induction false} JoinEndsWithSeparator(parts: seq<string>, sep: char)
    requires |parts| >= 2 && parts[|parts| - 1] == ""
    ensures Join(parts, sep) == Join(parts[..|parts| - 1], sep) + [sep]
  {
    if |parts| > 2 {
      JoinEndsWithSeparator(parts[1..], sep);
      assert parts[1..][..|parts[1..]| - 1] == parts[..|parts| - 1][1..];
    }
  }

  /** The summary always ends with a newline, whatever the nodes. */
  lemma FormatEndsWithNewline(c: DeployedCluster)
    ensures var text := Join(Lines(c), '\n');
      |text| > 0 && text[|text| - 1] == '\n'
  {
    LinesLayout(c);
    JoinEndsWithSeparator(Lines(c), '\n');
  }
}

/** The summaries the formatter's unit tests check for. */
module FormatExamples {
  import opened Strings
  import opened Format

  /** The six header lines of the test cluster. */
  const HeaderLines := [
    "Cluster: " + "testcluster",
    "------------------------",
    "Network: " + "172.30.0.0/24",
    "",
    "  " + "hostname       " + "ip_address      " + "container                ",
    "  " + "------------------------------------------------"]

  lemma RowTitle()
    ensures Row("hostname", "ip_address", "container") == "  " + "hostname       " + "ip_address      " + "container                "
  {
    assert PadRight("hostname", 15) == "hostname       ";
    assert PadRight("ip_address", 16) == "ip_address      ";
    assert PadRight("container", 25) == "container                ";
  }

  /** The header of the test cluster, whatever its nodes. */
  lemma TestHeader(nodes: seq<NodeInfo>)
    ensures Header(DeployedCluster("testcluster", "172.30.0.0/24", nodes)) == HeaderLines
  {
    RowTitle();
    assert Repeat('-', 24) == "------------------------";
    assert Repeat('-', 48) == "------------------------------------------------";
  }

  /** A cluster without nodes prints the header block and an empty last line. */
  lemma NoNodes()
    ensures Lines(DeployedCluster("testcluster", "172.30.0.0/24", [])) == HeaderLines + [""]
  {
    TestHeader([]);
    assert SortByHostname([]) == [];
  }

  const Node001 := NodeInfo("node001", "172.30.0.1", "testcluster-node001")
  const Node002 := NodeInfo("node002", "172.30.0.2", "testcluster-node002")
  const Head := NodeInfo("head", "172.30.0.253", "testcluster-head")
  const Gateway := NodeInfo("gateway", "172.30.0.254", "")

  /** The test nodes in hostname order, each hostname smaller than the next. */
  lemma TestOrder()
    ensures SortedByHostname([Gateway, Head, Node001, Node002])
  {
    assert Le("node001", "node002") && Le("head", "node001") && Le("gateway", "head");
    SortedCons(Node001, [Node002]);
    LeTransitive("head", "node001", "node002");
    assert [Node001] + [Node002] == [Node001, Node002];
    SortedCons(Head, [Node001, Node002]);
    LeTransitive("gateway", "head", "node001");
    LeTransitive("gateway", "node001", "node002");
    assert [Head] + [Node001, Node002] == [Head, Node001, Node002];
    SortedCons(Gateway, [Head, Node001, Node002]);
    assert [Gateway] + [Head, Node001, Node002] == [Gateway, Head, Node001, Node002];
  }

  lemma TestDistinct()
    ensures forall i, j :: 0 <= i < j < 4 ==>
      [Gateway, Head, Node001, Node002][i].hostname != [Gateway, Head, Node001, Node002][j].hostname
  {
    var t := [Gateway, Head, Node001, Node002];
    assert "gateway"[0] != "head"[0] && "gateway"[0] != "node001"[0] && "gateway"[0] != "node002"[0];
    assert "head"[0] != "node001"[0] && "head"[0] != "node002"[0];
    assert "node001"[6] != "node002"[6];
    forall i, j | 0 <= i < j < 4
      ensures t[i].hostname != t[j].hostname
    {
    }
  }

  lemma TestPermutation()
    ensures multiset([Node001, Node002, Head, Gateway]) == multiset([Gateway, Head, Node001, Node002])
  {
    assert [Node001, Node002, Head, Gateway] == [Node001, Node002] + [Head, Gateway];
    assert [Gateway, Head, Node001, Node002] == [Gateway, Head] + [Node001, Node002];
    assert multiset([Head, Gateway]) == multiset([Gateway, Head]);
  }

  /** The four test nodes in dictionary order sort as gateway, head, node001, node002. */
  lemma SortFour()
    ensures SortByHostname([Node001, Node002, Head, Gateway]) == [Gateway, Head, Node001, Node002]
  {
    var s := [Node001, Node002, Head, Gateway];
    var t := [Gateway, Head, Node001, Node002];
    TestOrder();
    TestDistinct();
    TestPermutation();
    SortedByHostnameUnique(SortByHostname(s), t);
  }

  lemma RowGateway()
    ensures NodeRow(Gateway) == "  " + "gateway        " + "172.30.0.254    " + "                         "
  {
    assert PadRight("gateway", 15) == "gateway        ";
    assert PadRight("172.30.0.254", 16) == "172.30.0.254    ";
    assert PadRight("", 25) == "                         ";
  }

  lemma RowHead()
    ensures NodeRow(Head) == "  " + "head           " + "172.30.0.253    " + "testcluster-head         "
  {
    assert PadRight("head", 15) == "head           ";
    assert PadRight("172.30.0.253", 16) == "172.30.0.253    ";
    assert PadRight("testcluster-head", 25) == "testcluster-head         ";
  }

  lemma RowNode001()
    ensures NodeRow(Node001) == "  " + "node001        " + "172.30.0.1      " + "testcluster-node001      "
  {
    assert PadRight("node001", 15) == "node001        ";
    assert PadRight("172.30.0.1", 16) == "172.30.0.1      ";
    assert PadRight("testcluster-node001", 25) == "testcluster-node001      ";
  }

  lemma RowNode002()
    ensures NodeRow(Node002) == "  " + "node002        " + "172.30.0.2      " + "testcluster-node002      "
  {
    assert PadRight("node002", 15) == "node002        ";
    assert PadRight("172.30.0.2", 16) == "172.30.0.2      ";
    assert PadRight("testcluster-node002", 25) == "testcluster-node002      ";
  }
}
