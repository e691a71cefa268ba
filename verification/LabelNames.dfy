/** Labels as Gmail knows them: names without regard to case, ids given by the server, and the cache of
    one client.  The run's view, a set of labels that exist, is what is left when names and ids are
    forgotten. */
module LabelNames {
  import opened Pipeline

  datatype Row = Row(name: string, id: nat)

  function NameOf(mark: Label): string {
    match mark
    case UNREAD => "UNREAD"
    case PROCESADO => "procesado"
    case FAILED => "failed"
  }

  /** The run's labels have different names without regard to case, if the case mapping leaves lower-case
      letters alone and maps "UNREAD" to "unread". */
  lemma NamesDiffer(lower: string -> string)
    requires lower("procesado") == "procesado" && lower("failed") == "failed" && lower("UNREAD") == "unread"
    ensures forall a, b :: lower(NameOf(a)) == lower(NameOf(b)) ==> a == b
  {
    assert "procesado"[0] == 'p' && "failed"[0] == 'f' && "unread"[0] == 'u';
  }

  /** The cache once these rows have been read into it: the last row of a name wins. */
  function ReadInto(ids: map<string, nat>, rows: seq<Row>, lower: string -> string): map<string, nat> {
    if rows == [] then ids
    else ReadInto(ids, rows[..|rows| - 1], lower)[lower(rows[|rows| - 1].name) := rows[|rows| - 1].id]
  }

  lemma {:induction false} ReadIntoIs(ids: map<string, nat>, rows: seq<Row>, lower: string -> string)
    ensures var read := ReadInto(ids, rows, lower);
            && (forall key :: key in read <==> key in ids || exists row | row in rows :: lower(row.name) == key)
            && (forall key | key in read ::
                  (key in ids && read[key] == ids[key]) || exists row | row in rows :: lower(row.name) == key && row.id == read[key])
  {
    if rows != [] {
      ReadIntoIs(ids, rows[..|rows| - 1], lower);
      assert rows == rows[..|rows| - 1] + [rows[|rows| - 1]];
    }
  }

  /** The client's labels: what it has cached, and the account behind it. */
  class GmailLabels {
    const lower: string -> string
    var sys: Sys
    var server: seq<Row>
    var ids: map<string, nat>

    /** The run's labels that exist under some spelling. */
    ghost function Existing(): set<Label>
      reads this
    {
      set mark: Label | exists row | row in server :: lower(row.name) == lower(NameOf(mark))
    }

    ghost function Cached(): set<Label>
      reads this
    {
      set mark: Label | lower(NameOf(mark)) in ids
    }

    /** The account is the one the run sees, and the cache holds ids of labels spelled like their key. */
    ghost predicate Valid()
      reads this
    {
      && (forall a, b :: lower(NameOf(a)) == lower(NameOf(b)) ==> a == b)
      && sys.world.made == Existing()
      && forall key | key in ids :: Spelled(key, ids[key])
    }

    ghost predicate Spelled(key: string, id: nat)
      reads this
    {
      exists row | row in server :: lower(row.name) == key && row.id == id
    }

    constructor (lower: string -> string, sys: Sys, server: seq<Row>)
      requires forall a, b :: lower(NameOf(a)) == lower(NameOf(b)) ==> a == b
      requires sys.world.made == set mark: Label | exists row | row in server :: lower(row.name) == lower(NameOf(mark))
      ensures Valid() && ids == map[] && this.server == server && this.sys == sys && this.lower == lower
    {
      this.lower := lower;
      this.sys := sys;
      this.server := server;
      ids := map[];
    }

    /** The account's labels read into the cache. */
    method ReadLabels() returns (r: Result<()>)
      requires Valid()
      modifies this`sys, this`ids
      ensures Valid() && Out(sys, r) == Call(old(sys), ListLabels)
      ensures Cached() == if r.Returned? then old(Cached()) + Existing() else old(Cached())
    {
      var listed := Call(sys, ListLabels);
      sys := listed.sys;
      if !listed.result.Returned? { return listed.result; }
      for i := 0 to |server|
        invariant sys == listed.sys
        invariant ids == ReadInto(old(ids), server[..i], lower)
      {
        assert server[..i + 1][..i] == server[..i];
        ids := ids[lower(server[i].name) := server[i].id];
      }
      assert server[..|server|] == server;
      ReadIntoIs(old(ids), server, lower);
      return listed.result;
    }

    /** A label created under the name as it is. */
    method CreateNew(mark: Label, newId: nat) returns (r: Result<()>)
      requires Valid() && mark !in Existing()
      modifies this`sys, this`server, this`ids
      ensures Valid() && Out(sys, r) == Call(old(sys), CreateLabel(mark))
      ensures server == old(server) || server == old(server) + [Row(NameOf(mark), newId)]
      ensures if r.Returned? then ids == old(ids)[lower(NameOf(mark)) := newId] else ids == old(ids)
    {
      var created := Call(sys, CreateLabel(mark));
      r := created.result;
      ghost var rows := server;
      if created.sys.world != sys.world {
        server := server + [Row(NameOf(mark), newId)];
        Created(rows, mark, newId);
      }
      sys := created.sys;
      if r.Returned? { ids := ids[lower(NameOf(mark)) := newId]; }
      forall key | key in ids
        ensures Spelled(key, ids[key])
      {
        if key in old(ids) && ids[key] == old(ids)[key] {
          var row :| row in rows && lower(row.name) == key && row.id == ids[key];
          assert row in server;
        }
      }
    }

    /** `get_or_create_label_id`: the id of a label spelled like the name, whatever the case; the label
        is created only if there is none.  `newId` is the id the server gives a new label. */
    method GetOrCreateLabelId(mark: Label, newId: nat) returns (r: Result<nat>)
      requires Valid()
      modifies this`sys, this`server, this`ids
      ensures Valid()
      ensures var o := EnsureLabel(old(sys), old(Cached()), mark);
              && sys == o.sys
              && r.Returned? == o.result.Returned? && r.Died? == o.result.Died?
              && (r.Returned? ==> Cached() == o.result.value)
      ensures r.Returned? ==> Spelled(lower(NameOf(mark)), r.value)
      ensures old(mark in Cached()) ==> r.Returned? && sys == old(sys)
      ensures old(mark in Existing() || mark in Cached()) ==> server == old(server)
      ensures server == old(server) || server == old(server) + [Row(NameOf(mark), newId)]
    {
      hide Call;
      var key := lower(NameOf(mark));
      if key in ids { return Returned(ids[key]); }
      var listed := ReadLabels();
      if !listed.Returned? { return Stop(listed); }
      assert Existing() == sys.world.made;
      if key in ids { return Returned(ids[key]); }
      ghost var known := Cached();
      var created := CreateNew(mark, newId);
      if !created.Returned? { return Stop(created); }
      assert Cached() == known + {mark};
      return Returned(newId);
    }

    /** A new label adds its own mark and no other. */
    lemma Created(before: seq<Row>, mark: Label, newId: nat)
      requires server == before + [Row(NameOf(mark), newId)]
      requires forall a, b :: lower(NameOf(a)) == lower(NameOf(b)) ==> a == b
      ensures Existing() == {mark} + set m: Label | exists row | row in before :: lower(row.name) == lower(NameOf(m))
      ensures forall row | row in before :: row in server
      ensures Spelled(lower(NameOf(mark)), newId)
    {
      assert server[|before|] == Row(NameOf(mark), newId);
      assert Row(NameOf(mark), newId) in server;
      assert forall row :: row in server <==> row in before || row == Row(NameOf(mark), newId);
    }
  }
}
