/** Reading the top of a ranked table page by page, window by window. */
module BaselinePaging {
  import opened Sequences
  import opened BaselineWindows

  const PAGE_SIZE := 5000

  type Name = nat

  /** LIMIT and OFFSET over the ranked table. */
  function Page(table: seq<Name>, limit: nat, offset: nat): seq<Name> {
    if offset >= |table| then []
    else if offset + limit >= |table| then table[offset..]
    else table[offset..offset + limit]
  }

  /** The first `limit` different names from `offset` on. */
  ghost function FirstNames(table: seq<Name>, limit: nat, offset: nat): seq<Name> {
    if limit == 0 || offset >= |table| then [] else Capped(Dedupe(table[offset..]), limit)
  }

  lemma PageOfSuffix(table: seq<Name>, offset: nat, read: nat, limit: nat)
    requires offset + read <= |table|
    ensures var page := Page(table, limit, offset + read);
            && offset + read + |page| <= |table| && |page| <= limit
            && table[offset..][..read] + page == table[offset..][..read + |page|]
            && (|page| < limit ==> offset + read + |page| == |table|)
  {}

  /** The state of the page loop: everything from `offset0` to `offset` has been read. */
  ghost predicate ReadUpTo(table: seq<Name>, limit: nat, offset0: nat, offset: nat, packages: seq<Name>) {
    && offset0 <= offset <= |table| && |packages| <= limit
    && packages == Dedupe(table[offset0..][..offset - offset0])
  }

  lemma NothingRead(table: seq<Name>, limit: nat, offset: nat)
    requires offset <= |table|
    ensures ReadUpTo(table, limit, offset, offset, [])
  {
    assert table[offset..][..0] == [];
  }

  lemma PageRead(table: seq<Name>, limit: nat, offset0: nat, offset: nat, packages: seq<Name>, rows: seq<Name>, size: nat)
    requires ReadUpTo(table, limit, offset0, offset, packages)
    requires rows == Page(table, size, offset) && size <= limit - |packages|
    ensures Distinct(packages)
    ensures ReadUpTo(table, limit, offset0, offset + |rows|, Dedupe(packages + rows))
    ensures |rows| < size ==> offset + |rows| == |table|
  {
    hide Dedupe, Distinct, Page;
    var read := table[offset0..][..offset - offset0];
    PageOfSuffix(table, offset0, offset - offset0, size);
    DedupeFacts(read);
    DedupeTwice(read, rows);
    DedupeExtends(read, rows);
  }

  lemma ReadIsPrefix(table: seq<Name>, limit: nat, offset0: nat, offset: nat, packages: seq<Name>)
    requires ReadUpTo(table, limit, offset0, offset, packages) && (|packages| == limit || offset == |table|)
    ensures packages == FirstNames(table, limit, offset0)
  {
    hide Dedupe;
    var rest, read := table[offset0..], offset - offset0;
    SplitAppended([], rest, read);
    assert [] + rest == rest && [] + rest[..read] == rest[..read];
    DedupeExtends(rest[..read], rest[read..]);
    if offset0 == |table| {
      assert rest == [];
      DedupeFacts(rest);
    }
  }

  /** Paging by LIMIT and OFFSET reads the first `limit` different names of the table. */
  method QueryTopPackages(table: seq<Name>, limit: nat, offset0: nat) returns (packages: seq<Name>)
    ensures packages == FirstNames(table, limit, offset0)
  {
    if limit == 0 { return []; }
    if offset0 > |table| { return []; }
    hide Dedupe, Distinct;
    packages := [];
    var offset := offset0;
    NothingRead(table, limit, offset0);
    while |packages| < limit
      invariant ReadUpTo(table, limit, offset0, offset, packages)
      decreases |table| - offset
    {
      var pageSize := if limit - |packages| < PAGE_SIZE then limit - |packages| else PAGE_SIZE;
      var rows := Page(table, pageSize, offset);
      PageRead(table, limit, offset0, offset, packages, rows, pageSize);
      if |rows| == 0 { break; }
      packages := AppendNew(packages, rows, limit);
      offset := offset + |rows|;
      if |rows| < pageSize { break; }
    }
    ReadIsPrefix(table, limit, offset0, offset, packages);
  }

  lemma FirstOfDistinct(table: seq<Name>, limit: nat, offset: nat)
    requires Distinct(table)
    ensures FirstNames(table, limit, offset) == Page(table, limit, offset)
  {
    if limit > 0 && offset < |table| { DedupeDistinct(table[offset..]); }
  }

  lemma PagesJoin(table: seq<Name>, offset: nat, a: nat, b: nat)
    requires Distinct(table)
    ensures Page(table, a, offset) + Page(table, b, offset + a) == Page(table, a + b, offset)
    ensures Distinct(Page(table, a + b, offset))
  {}

  lemma WindowRead(table: seq<Name>, limit: nat, offset: nat, i: nat, rows: seq<Name>, windowRows: seq<Name>)
    requires i < WindowCount(limit)
    requires var w := WindowAt(limit, offset, 0, i); windowRows == FirstNames(table, w.packages, w.offset)
    requires Distinct(table) ==> rows == Page(table, Covered(limit, i), offset)
    ensures Distinct(table) ==> Dedupe(rows + windowRows) == Page(table, Covered(limit, i + 1), offset)
  {
    hide Page, Dedupe, Distinct, FirstNames;
    if Distinct(table) {
      var w := WindowAt(limit, offset, 0, i);
      FirstOfDistinct(table, w.packages, w.offset);
      PagesJoin(table, offset, Covered(limit, i), w.packages);
      DedupeDistinct(rows + windowRows);
    }
  }

  /** The windows of a top package import together read one slice of a ranked table. */
  method ImportTopPackages(table: seq<Name>, limit: nat, offset: nat) returns (rows: seq<Name>)
    ensures Distinct(rows)
    ensures Distinct(table) ==> rows == Page(table, limit, offset)
  {
    if limit == 0 { return []; }
    var windows := BaselinePackageWindows(limit, offset, 0);
    rows := [];
    assert Page(table, 0, offset) == [];
    assert Distinct(rows);
    hide Page, Dedupe, Distinct, FirstNames, WindowAt;
    for i := 0 to |windows|
      invariant Distinct(rows)
      invariant Distinct(table) ==> rows == Page(table, Covered(limit, i), offset)
    {
      var windowRows := QueryTopPackages(table, windows[i].packages, windows[i].offset);
      WindowRead(table, limit, offset, i, rows, windowRows);
      DedupeFacts(rows + windowRows);
      rows := AppendNew(rows, windowRows, 0);
    }
  }

  /** How many packages the first `i` windows ask for. */
  ghost function Covered(limit: nat, i: nat): nat {
    if PACKAGE_WINDOW * i < limit then PACKAGE_WINDOW * i else limit
  }
}
