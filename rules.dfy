/**
 * Rule tables and how `_read_csv` (infra.py) builds them from a rule file.
 *
 * The file itself is not modelled: a rule file is given as the sequence of
 * rows `csv.DictReader` yields (`None` when the file does not exist).
 * Lowercasing is the parameter `lower`, standing for Python's `str.lower`.
 */
module Rules {
  import opened Wrappers
  import opened OrderedDict
  import opened PyInt

  /** One row of a rule file: its `pattern`, `type` and `comment` cells. */
  datatype Row = Row(pattern: string, kind: string, comment: string)

  /**
   * The three tables of one rule file, each mapping a pattern to its label
   * (the row's comment). Keywords keep the file's order, which decides which
   * keyword matches first; ports and IPs are only ever looked up.
   */
  datatype Config = Config(keywords: seq<(string, string)>, ports: map<int, string>, ips: map<string, string>)

  const Empty := Config([], map[], map[])

  /** The only `Row` on which `_read_csv` raises: a `port` row whose pattern `int` rejects. */
  predicate Raises(row: Row)
  {
    row.kind == "port" && ParseInt(row.pattern).None?
  }

  predicate NoneRaise(rows: seq<Row>)
  {
    forall i :: 0 <= i < |rows| ==> !Raises(rows[i])
  }

  predicate SetsKeyword(lower: string -> string, row: Row, k: string)
  {
    row.kind == "keyword" && lower(row.pattern) == k
  }

  predicate SetsPort(row: Row, n: int)
  {
    row.kind == "port" && ParseInt(row.pattern) == Some(n)
  }

  predicate SetsIp(row: Row, ip: string)
  {
    row.kind == "ip" && row.pattern == ip
  }

  /** One pass of the loop body: the updated tables, or `None` when the row raises. */
  function AddRow(lower: string -> string, c: Config, row: Row): Option<Config>
  {
    if row.kind == "keyword" then Some(c.(keywords := Put(c.keywords, lower(row.pattern), row.comment)))
    else if row.kind == "port" then
      match ParseInt(row.pattern)
      case None => None
      case Some(n) => Some(c.(ports := c.ports[n := row.comment]))
    else if row.kind == "ip" then Some(c.(ips := c.ips[row.pattern := row.comment]))
    else Some(c)
  }

  /** The rows added one by one to `c`; the first row that raises ends the load and keeps what was added. */
  function LoadRows(lower: string -> string, c: Config, rows: seq<Row>): Config
    decreases |rows|
  {
    if rows == [] then c
    else match AddRow(lower, c, rows[0])
      case None => c
      case Some(c') => LoadRows(lower, c', rows[1..])
  }

  /** What `_read_csv(path)` returns for a file that is missing (`None`) or yields `rows`. */
  function Load(lower: string -> string, file: Option<seq<Row>>): Config
  {
    match file
    case None => Empty
    case Some(rows) => LoadRows(lower, Empty, rows)
  }

  /** `_read_csv`: fills the three tables row by row, and gives up on the first row that raises. */
  method ReadCsv(lower: string -> string, file: Option<seq<Row>>) returns (data: Config)
    ensures data == Load(lower, file)
    ensures file.None? ==> data == Empty
  {
    data := Config([], map[], map[]);
    if file.Some? {
      var rows := file.value;
      var i := 0;
      while i < |rows|
        invariant 0 <= i <= |rows|
        invariant Load(lower, file) == LoadRows(lower, data, rows[i..])
      {
        assert rows[i..][1..] == rows[i + 1..];
        var row := rows[i];
        if row.kind == "keyword" {
          data := data.(keywords := Put(data.keywords, lower(row.pattern), row.comment));
        } else if row.kind == "port" {
          var n := ParseInt(row.pattern);
          if n.None? {
            break;
          }
          data := data.(ports := data.ports[n.value := row.comment]);
        } else if row.kind == "ip" {
          data := data.(ips := data.ips[row.pattern := row.comment]);
        }
        i := i + 1;
      }
    }
  }

  /** Loading stops at the first row that raises: the result is that of the rows before it. */
  lemma {:induction false} LoadStopsAtFirstRaise(lower: string -> string, c: Config, rows: seq<Row>, i: nat)
    requires i < |rows| && Raises(rows[i]) && NoneRaise(rows[..i])
    ensures LoadRows(lower, c, rows) == LoadRows(lower, c, rows[..i])
    decreases |rows|
  {
    if i > 0 {
      assert !Raises(rows[..i][0]);
      var c' := AddRow(lower, c, rows[0]).value;
      assert rows[1..][..i - 1] == rows[..i][1..];
      LoadStopsAtFirstRaise(lower, c', rows[1..], i - 1);
    }
  }

  /** The rows whose type is keyword, port or ip. */
  function KnownRows(rows: seq<Row>): seq<Row>
  {
    if rows == [] then []
    else if rows[0].kind in {"keyword", "port", "ip"} then [rows[0]] + KnownRows(rows[1..])
    else KnownRows(rows[1..])
  }

  /** Rows of any other type are ignored. */
  lemma {:induction false} LoadIgnoresOtherKinds(lower: string -> string, c: Config, rows: seq<Row>)
    ensures LoadRows(lower, c, rows) == LoadRows(lower, c, KnownRows(rows))
    decreases |rows|
  {
    if rows != [] {
      match AddRow(lower, c, rows[0])
      case None =>
      case Some(c') =>
        LoadIgnoresOtherKinds(lower, c', rows[1..]);
        if rows[0].kind in {"keyword", "port", "ip"} {
          assert KnownRows(rows)[1..] == KnownRows(rows[1..]);
        }
    }
  }

  /** An IP no row mentions keeps whatever label it had (or stays absent). */
  lemma {:induction false} LoadIpUnlisted(lower: string -> string, c: Config, rows: seq<Row>, ip: string)
    requires forall l :: 0 <= l < |rows| ==> !SetsIp(rows[l], ip)
    ensures ip in LoadRows(lower, c, rows).ips <==> ip in c.ips
    ensures ip in c.ips ==> LoadRows(lower, c, rows).ips[ip] == c.ips[ip]
    decreases |rows|
  {
    if rows != [] {
      match AddRow(lower, c, rows[0])
      case None =>
      case Some(c') => LoadIpUnlisted(lower, c', rows[1..], ip);
    }
  }

  /** The last `ip` row for an address gives its label. */
  lemma {:induction false} LoadIpLastWins(lower: string -> string, c: Config, rows: seq<Row>, j: nat)
    requires NoneRaise(rows) && j < |rows| && rows[j].kind == "ip"
    requires forall l :: j < l < |rows| ==> !SetsIp(rows[l], rows[j].pattern)
    ensures rows[j].pattern in LoadRows(lower, c, rows).ips
    ensures LoadRows(lower, c, rows).ips[rows[j].pattern] == rows[j].comment
    decreases |rows|
  {
    assert !Raises(rows[0]);
    var c' := AddRow(lower, c, rows[0]).value;
    if j == 0 {
      LoadIpUnlisted(lower, c', rows[1..], rows[0].pattern);
    } else {
      LoadIpLastWins(lower, c', rows[1..], j - 1);
    }
  }

  /** A port no row mentions keeps whatever label it had (or stays absent). */
  lemma {:induction false} LoadPortUnlisted(lower: string -> string, c: Config, rows: seq<Row>, n: int)
    requires forall l :: 0 <= l < |rows| ==> !SetsPort(rows[l], n)
    ensures n in LoadRows(lower, c, rows).ports <==> n in c.ports
    ensures n in c.ports ==> LoadRows(lower, c, rows).ports[n] == c.ports[n]
    decreases |rows|
  {
    if rows != [] {
      match AddRow(lower, c, rows[0])
      case None =>
      case Some(c') => LoadPortUnlisted(lower, c', rows[1..], n);
    }
  }

  /** The last `port` row for a port number (as `int` reads its pattern) gives its label. */
  lemma {:induction false} LoadPortLastWins(lower: string -> string, c: Config, rows: seq<Row>, j: nat, n: int)
    requires NoneRaise(rows) && j < |rows| && SetsPort(rows[j], n)
    requires forall l :: j < l < |rows| ==> !SetsPort(rows[l], n)
    ensures n in LoadRows(lower, c, rows).ports
    ensures LoadRows(lower, c, rows).ports[n] == rows[j].comment
    decreases |rows|
  {
    assert !Raises(rows[0]);
    var c' := AddRow(lower, c, rows[0]).value;
    if j == 0 {
      LoadPortUnlisted(lower, c', rows[1..], n);
    } else {
      LoadPortLastWins(lower, c', rows[1..], j - 1, n);
    }
  }

  /** A keyword no row mentions keeps whatever label it had (or stays absent). */
  lemma {:induction false} LoadKeywordUnlisted(lower: string -> string, c: Config, rows: seq<Row>, k: string)
    requires forall l :: 0 <= l < |rows| ==> !SetsKeyword(lower, rows[l], k)
    ensures Get(LoadRows(lower, c, rows).keywords, k) == Get(c.keywords, k)
    decreases |rows|
  {
    if rows != [] {
      match AddRow(lower, c, rows[0])
      case None =>
      case Some(c') =>
        if rows[0].kind == "keyword" {
          PutGet(c.keywords, lower(rows[0].pattern), rows[0].comment, k);
        }
        LoadKeywordUnlisted(lower, c', rows[1..], k);
    }
  }

  /** The last `keyword` row for a lowercased pattern gives its label. */
  lemma {:induction false} LoadKeywordLastWins(lower: string -> string, c: Config, rows: seq<Row>, j: nat)
    requires NoneRaise(rows) && j < |rows| && rows[j].kind == "keyword"
    requires forall l :: j < l < |rows| ==> !SetsKeyword(lower, rows[l], lower(rows[j].pattern))
    ensures Get(LoadRows(lower, c, rows).keywords, lower(rows[j].pattern)) == Some(rows[j].comment)
    decreases |rows|
  {
    assert !Raises(rows[0]);
    var c' := AddRow(lower, c, rows[0]).value;
    var k := lower(rows[j].pattern);
    if rows[0].kind == "keyword" {
      PutGet(c.keywords, lower(rows[0].pattern), rows[0].comment, k);
    }
    if j == 0 {
      LoadKeywordUnlisted(lower, c', rows[1..], k);
    } else {
      LoadKeywordLastWins(lower, c', rows[1..], j - 1);
    }
  }

  /** The lowercased patterns of the keyword rows, in file order. */
  function KeywordPatterns(lower: string -> string, rows: seq<Row>): seq<string>
  {
    if rows == [] then []
    else (if rows[0].kind == "keyword" then [lower(rows[0].pattern)] else []) + KeywordPatterns(lower, rows[1..])
  }

  /** `ks` followed by each of `xs` not seen before, in order of first appearance. */
  function AppendNew(ks: seq<string>, xs: seq<string>): seq<string>
    decreases |xs|
  {
    if xs == [] then ks
    else AppendNew(if xs[0] in ks then ks else ks + [xs[0]], xs[1..])
  }

  lemma AppendNewCons(ks: seq<string>, x: string, xs: seq<string>)
    ensures AppendNew(ks, [x] + xs) == AppendNew(if x in ks then ks else ks + [x], xs)
  {
    assert ([x] + xs)[1..] == xs;
  }

  /**
   * Keywords are scanned in order of their first row: a later row for the
   * same keyword changes its label but not its place.
   */
  lemma {:induction false} LoadKeywordOrder(lower: string -> string, c: Config, rows: seq<Row>)
    requires NoneRaise(rows)
    ensures Keys(LoadRows(lower, c, rows).keywords) == AppendNew(Keys(c.keywords), KeywordPatterns(lower, rows))
    decreases |rows|
  {
    if rows != [] {
      assert !Raises(rows[0]);
      var c' := AddRow(lower, c, rows[0]).value;
      assert NoneRaise(rows[1..]);
      LoadKeywordOrder(lower, c', rows[1..]);
      var ps := KeywordPatterns(lower, rows);
      var ks := Keys(c.keywords);
      if rows[0].kind == "keyword" {
        var k := lower(rows[0].pattern);
        PutKeys(c.keywords, k, rows[0].comment);
        assert ps == [k] + KeywordPatterns(lower, rows[1..]);
        AppendNewCons(ks, k, KeywordPatterns(lower, rows[1..]));
      } else {
        assert ps == KeywordPatterns(lower, rows[1..]);
      }
    }
  }

  /** No keyword is stored twice. */
  lemma {:induction false} LoadKeywordsUnique(lower: string -> string, c: Config, rows: seq<Row>)
    requires UniqueKeys(c.keywords)
    ensures UniqueKeys(LoadRows(lower, c, rows).keywords)
    decreases |rows|
  {
    if rows != [] {
      match AddRow(lower, c, rows[0])
      case None =>
      case Some(c') =>
        if rows[0].kind == "keyword" {
          PutUnique(c.keywords, lower(rows[0].pattern), rows[0].comment);
        }
        LoadKeywordsUnique(lower, c', rows[1..]);
    }
  }
}
