/** The duplicate relation of the discovery transaction and its serial meaning. */
module Drafts {
  import opened Text
  import opened Stores

  /** `stored` makes the duplicate check refuse `arg`. Stored text goes through SQL's
      btrim, the new text through Go's TrimSpace, so the relation is not symmetric. */
  predicate Duplicate(lower: char -> char, stored: Fields, arg: Fields) {
    || stored.sourceUrl == arg.sourceUrl
    || (stored.ward == arg.ward &&
        (SameName(lower, stored, arg) || SameAddress(lower, stored, arg)))
  }

  predicate SameName(lower: char -> char, stored: Fields, arg: Fields) {
    Lower(lower, BTrim(stored.name)) == Lower(lower, TrimSpace(arg.name))
  }

  predicate SameAddress(lower: char -> char, stored: Fields, arg: Fields) {
    && BTrim(stored.address) != ""
    && Lower(lower, BTrim(stored.address)) == Lower(lower, TrimSpace(arg.address))
  }

  predicate Refused(lower: char -> char, rows: seq<Row>, arg: Fields) {
    exists i :: 0 <= i < |rows| && Duplicate(lower, rows[i].store.fields, arg)
  }

  /** Draft semantics are enforced whatever the caller asked for. */
  function DraftOf(arg: Fields): Fields {
    arg.(status := Draft, gfStatus := OnRequest, gfOriented := false)
  }

  function Append(rows: seq<Row>, f: Fields): seq<Row> {
    rows + [Row(if rows == [] then 0 else rows[|rows| - 1].id + 1, Store(f, None, None))]
  }

  /** One committed discovery save. */
  function Save(lower: char -> char, rows: seq<Row>, arg: Fields): seq<Row> {
    if Refused(lower, rows, arg) then rows else Append(rows, DraftOf(arg))
  }

  function SaveAll(lower: char -> char, rows: seq<Row>, args: seq<Fields>): seq<Row> {
    if args == [] then rows
    else Save(lower, SaveAll(lower, rows, args[..|args| - 1]), args[|args| - 1])
  }

  lemma MoreRowsRefuseMore(lower: char -> char, rows: seq<Row>, more: seq<Row>, arg: Fields)
    requires rows <= more && Refused(lower, rows, arg)
    ensures Refused(lower, more, arg)
  {
    var i :| 0 <= i < |rows| && Duplicate(lower, rows[i].store.fields, arg);
    assert more[i] == rows[i];
  }

  lemma SavedIsRefused(lower: char -> char, rows: seq<Row>, arg: Fields)
    ensures rows <= Save(lower, rows, arg)
    ensures Refused(lower, Save(lower, rows, arg), arg)
  {
    if !Refused(lower, rows, arg) {
      var saved := Save(lower, rows, arg);
      assert Duplicate(lower, saved[|rows|].store.fields, arg);
    }
  }

  lemma {:induction false} SaveAllKeeps(lower: char -> char, rows: seq<Row>, args: seq<Fields>)
    ensures rows <= SaveAll(lower, rows, args)
    ensures forall k :: 0 <= k < |args| ==> Refused(lower, SaveAll(lower, rows, args), args[k])
  {
    if args != [] {
      var before := SaveAll(lower, rows, args[..|args| - 1]);
      SaveAllKeeps(lower, rows, args[..|args| - 1]);
      SavedIsRefused(lower, before, args[|args| - 1]);
      forall k | 0 <= k < |args|
        ensures Refused(lower, SaveAll(lower, rows, args), args[k])
      {
        if k < |args| - 1 {
          assert args[..|args| - 1][k] == args[k];
          MoreRowsRefuseMore(lower, before, SaveAll(lower, rows, args), args[k]);
        }
      }
    }
  }

  lemma {:induction false} SaveAllMonotone(lower: char -> char, rows: seq<Row>, args: seq<Fields>, n: nat)
    requires n <= |args|
    ensures SaveAll(lower, rows, args[..n]) <= SaveAll(lower, rows, args)
  {
    if n < |args| {
      SaveAllMonotone(lower, rows, args[..|args| - 1], n);
      assert args[..|args| - 1][..n] == args[..n];
      SavedIsRefused(lower, SaveAll(lower, rows, args[..|args| - 1]), args[|args| - 1]);
    } else {
      assert args[..n] == args;
    }
  }

  /** Saving a list again over rows that a run of it reaches: the rows already there
      are recognised one by one and the missing ones are added in the same order. */
  lemma {:induction false} SaveAllResumes(lower: char -> char, rows: seq<Row>, part: seq<Row>, args: seq<Fields>)
    requires rows <= part
    requires part <= SaveAll(lower, rows, args)
    ensures SaveAll(lower, part, args) == SaveAll(lower, rows, args)
  {
    if args == [] {
      assert part == rows;
    } else {
      var init, last := args[..|args| - 1], args[|args| - 1];
      var full := SaveAll(lower, rows, init);
      if part <= full {
        SaveAllResumes(lower, rows, part, init);
      } else {
        // part is the whole result: every argument is recognised
        assert part == SaveAll(lower, rows, args);
        SaveAllKeeps(lower, rows, args);
        SaveAllRefused(lower, part, args);
      }
    }
  }

  lemma {:induction false} SaveAllRefused(lower: char -> char, rows: seq<Row>, args: seq<Fields>)
    requires forall k :: 0 <= k < |args| ==> Refused(lower, rows, args[k])
    ensures SaveAll(lower, rows, args) == rows
  {
    if args != [] {
      var init := args[..|args| - 1];
      forall k | 0 <= k < |init|
        ensures Refused(lower, rows, init[k])
      {
        assert init[k] == args[k];
      }
      SaveAllRefused(lower, rows, init);
    }
  }
}
