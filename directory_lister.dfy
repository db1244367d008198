/**
 * The directory lister: which of the entries `readdir` enumerates end up as
 * rows of the listing, and in which order.
 */
module DirectoryLister {
  import opened Options

  /** What `stat` reports of an entry: `st_size` and whether it is a
      directory. */
  datatype FileStat = FileStat(size: int, isDirectory: bool)

  /** One entry as `readdir` yields it, with the outcome of `stat` on its full
      path (`None` when the call fails). */
  datatype DirEntry = DirEntry(name: string, stat: Option<FileStat>)

  /** One printed row: name, size in bytes, and "Directory" or "File". */
  datatype Row = Row(name: string, size: int, isDirectory: bool)

  /** A name whose first character is a dot, `.` and `..` included. */
  predicate IsHidden(name: string)
  {
    |name| > 0 && name[0] == '.'
  }

  /** The rows one entry contributes to the listing: none when dotfiles are
      off (`showHidden == 0`) and the name is hidden, none when `stat` fails,
      otherwise the entry's own row. */
  function RowsOf(e: DirEntry, showHidden: int): (rows: seq<Row>)
    ensures |rows| <= 1
    ensures rows != [] <==> e.stat.Some? && (showHidden != 0 || !IsHidden(e.name))
    ensures rows != [] ==> rows[0] == Row(e.name, e.stat.value.size, e.stat.value.isDirectory)
  {
    if showHidden == 0 && IsHidden(e.name) then []
    else
      match e.stat
      case None => []
      case Some(st) => [Row(e.name, st.size, st.isDirectory)]
  }

  /** The listing of the enumerated entries, in enumeration order. */
  function Listing(entries: seq<DirEntry>, showHidden: int): seq<Row>
  {
    if entries == [] then []
    else Listing(entries[..|entries| - 1], showHidden) + RowsOf(entries[|entries| - 1], showHidden)
  }

  /** `list_directory`: `dir` is the enumeration of the directory, or `None`
      when `opendir` fails and nothing is listed. */
  method ListDirectory(dir: Option<seq<DirEntry>>, showHidden: int) returns (rows: Option<seq<Row>>)
    ensures rows.None? <==> dir.None?
    ensures dir.Some? ==> rows.value == Listing(dir.value, showHidden)
  {
    if dir.None? {
      return None;
    }
    var entries := dir.value;
    var listed: seq<Row> := [];
    var i := 0;
    while i < |entries|
      invariant 0 <= i <= |entries|
      invariant listed == Listing(entries[..i], showHidden)
    {
      var entry := entries[i];
      assert entries[..i + 1][..i] == entries[..i];
      i := i + 1;
      if showHidden == 0 && IsHidden(entry.name) {
        continue;
      }
      if entry.stat.Some? {
        listed := listed + [Row(entry.name, entry.stat.value.size, entry.stat.value.isDirectory)];
      }
    }
    assert entries[..|entries|] == entries;
    return Some(listed);
  }

  /** One more entry at the end of the enumeration adds its rows at the end
      of the listing. */
  lemma ListingSnoc(entries: seq<DirEntry>, e: DirEntry, showHidden: int)
    ensures Listing(entries + [e], showHidden) == Listing(entries, showHidden) + RowsOf(e, showHidden)
  {
    assert (entries + [e])[..|entries|] == entries;
  }

  /** Listing two runs of entries one after the other lists each in turn: the
      listing keeps the enumeration order. */
  lemma {:induction false} ListingAppend(a: seq<DirEntry>, b: seq<DirEntry>, showHidden: int)
    ensures Listing(a + b, showHidden) == Listing(a, showHidden) + Listing(b, showHidden)
  {
    if b == [] {
      assert a + b == a;
    } else {
      assert (a + b)[..|a + b| - 1] == a + b[..|b| - 1];
      ListingAppend(a, b[..|b| - 1], showHidden);
    }
  }

  /** An entry whose `stat` fails is skipped and the listing goes on. */
  lemma StatFailureSkipped(before: seq<DirEntry>, e: DirEntry, after: seq<DirEntry>, showHidden: int)
    requires e.stat.None?
    ensures Listing(before + [e] + after, showHidden) == Listing(before, showHidden) + Listing(after, showHidden)
  {
    ListingAppend(before + [e], after, showHidden);
    ListingSnoc(before, e, showHidden);
  }

  /** A row is listed exactly when some enumerated entry contributes it. */
  lemma {:induction false} ListingMembership(entries: seq<DirEntry>, showHidden: int, r: Row)
    ensures r in Listing(entries, showHidden)
        <==> exists i | 0 <= i < |entries| :: r in RowsOf(entries[i], showHidden)
  {
    if entries != [] {
      var init := entries[..|entries| - 1];
      ListingMembership(init, showHidden, r);
      if r in Listing(entries, showHidden) {
        if r in Listing(init, showHidden) {
          var i :| 0 <= i < |init| && r in RowsOf(init[i], showHidden);
          assert entries[i] == init[i];
        } else {
          assert r in RowsOf(entries[|entries| - 1], showHidden);
        }
      } else {
        forall i | 0 <= i < |entries|
          ensures r !in RowsOf(entries[i], showHidden)
        {
          if i < |init| {
            assert entries[i] == init[i];
          }
        }
      }
    }
  }

  /** With dotfiles off, no listed name starts with a dot, so `.` and `..` are
      not listed either. */
  lemma NoHiddenRowsWhenOff(entries: seq<DirEntry>, r: Row)
    requires r in Listing(entries, 0)
    ensures !IsHidden(r.name) && r.name != "." && r.name != ".."
  {
    ListingMembership(entries, 0, r);
  }

  /** With dotfiles on, the dot rule removes nothing: every entry whose `stat`
      succeeds is listed, with its size and type. */
  lemma ShownWhenOn(entries: seq<DirEntry>, showHidden: int, i: nat)
    requires showHidden != 0 && i < |entries| && entries[i].stat.Some?
    ensures Row(entries[i].name, entries[i].stat.value.size, entries[i].stat.value.isDirectory)
            in Listing(entries, showHidden)
  {
    ListingMembership(entries, showHidden,
      Row(entries[i].name, entries[i].stat.value.size, entries[i].stat.value.isDirectory));
  }

  /** The entries whose names do not start with a dot, in their order. */
  function Visible(entries: seq<DirEntry>): (v: seq<DirEntry>)
    ensures forall k | 0 <= k < |v| :: !IsHidden(v[k].name)
  {
    if entries == [] then []
    else
      var last := entries[|entries| - 1];
      Visible(entries[..|entries| - 1]) + (if IsHidden(last.name) then [] else [last])
  }

  /** Hiding dotfiles lists the same rows as showing them for a directory
      from which the dotfiles were taken away. */
  lemma {:induction false} HidingRemovesExactlyDotfiles(entries: seq<DirEntry>, showHidden: int)
    requires showHidden != 0
    ensures Listing(entries, 0) == Listing(Visible(entries), showHidden)
  {
    if entries != [] {
      var init, last := entries[..|entries| - 1], entries[|entries| - 1];
      HidingRemovesExactlyDotfiles(init, showHidden);
      var kept := if IsHidden(last.name) then [] else [last];
      ListingAppend(Visible(init), kept, showHidden);
      if kept != [] {
        assert kept[..0] == [];
      }
    }
  }

  /** The listing of four entries, one row after the other. */
  lemma ListingOfFour(ea: DirEntry, eb: DirEntry, ec: DirEntry, ed: DirEntry, showHidden: int)
    ensures Listing([ea, eb, ec, ed], showHidden)
         == RowsOf(ea, showHidden) + RowsOf(eb, showHidden) + RowsOf(ec, showHidden) + RowsOf(ed, showHidden)
  {
    ListingSnoc([], ea, showHidden);
    assert [] + [ea] == [ea];
    ListingSnoc([ea], eb, showHidden);
    assert [ea] + [eb] == [ea, eb];
    ListingSnoc([ea, eb], ec, showHidden);
    assert [ea, eb] + [ec] == [ea, eb, ec];
    ListingSnoc([ea, eb, ec], ed, showHidden);
    assert [ea, eb, ec] + [ed] == [ea, eb, ec, ed];
  }

  /** Four entries `.a`, `b`, `.c`, `d` whose `stat` succeeds: with dotfiles
      off only `b` and `d` are listed, with dotfiles on all four, in order. */
  lemma HiddenExample(sa: FileStat, sb: FileStat, sc: FileStat, sd: FileStat)
    ensures var es := [DirEntry(".a", Some(sa)), DirEntry("b", Some(sb)),
                       DirEntry(".c", Some(sc)), DirEntry("d", Some(sd))];
      && Listing(es, 0) == [Row("b", sb.size, sb.isDirectory), Row("d", sd.size, sd.isDirectory)]
      && Listing(es, 1) == [Row(".a", sa.size, sa.isDirectory), Row("b", sb.size, sb.isDirectory),
                            Row(".c", sc.size, sc.isDirectory), Row("d", sd.size, sd.isDirectory)]
  {
    var ea, eb, ec, ed := DirEntry(".a", Some(sa)), DirEntry("b", Some(sb)),
                          DirEntry(".c", Some(sc)), DirEntry("d", Some(sd));
    assert IsHidden(ea.name) && !IsHidden(eb.name) && IsHidden(ec.name) && !IsHidden(ed.name);
    ListingOfFour(ea, eb, ec, ed, 0);
    ListingOfFour(ea, eb, ec, ed, 1);
  }
}
