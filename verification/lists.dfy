/** The interactive list messages the bot sends: sections of selectable rows. */
module Lists {
  import opened Wrappers

  /** One selectable row; `id` comes back in the customer's reply. */
  datatype Row = Row(id: string, title: string, description: string)

  datatype Section = Section(title: string, rows: seq<Row>)

  /** sections.flatMap(section => section.rows) */
  function Flatten(sections: seq<Section>): (rows: seq<Row>)
    ensures sections == [] ==> rows == []
    ensures |sections| == 1 ==> rows == sections[0].rows
    ensures forall r :: r in rows <==> exists k :: 0 <= k < |sections| && r in sections[k].rows
    decreases |sections|
  {
    if sections == [] then []
    else
      var rest := Flatten(sections[1..]);
      assert forall r :: r in rest <==> exists k :: 1 <= k < |sections| && r in sections[k].rows by {
        forall r | r in rest ensures exists k :: 1 <= k < |sections| && r in sections[k].rows {
          var j :| 0 <= j < |sections[1..]| && r in sections[1..][j].rows;
          assert r in sections[j + 1].rows;
        }
        forall r | exists k :: 1 <= k < |sections| && r in sections[k].rows ensures r in rest {
          var k :| 1 <= k < |sections| && r in sections[k].rows;
          assert sections[1..][k - 1] == sections[k];
        }
      }
      sections[0].rows + rest
  }

  /** Flattening keeps the order of the sections: the rows of a list of
      sections followed by another are the rows of the first, then the rows of
      the second. */
  lemma {:induction false} FlattenAppend(a: seq<Section>, b: seq<Section>)
    ensures Flatten(a + b) == Flatten(a) + Flatten(b)
    decreases |a|
  {
    if a != [] {
      assert (a + b)[1..] == a[1..] + b;
      FlattenAppend(a[1..], b);
    } else {
      assert a + b == b;
    }
  }

  /** rows.find(row => row.id === id) */
  function FindRow(rows: seq<Row>, id: string): (r: Option<Row>)
    ensures r.Some? ==> r.value in rows && r.value.id == id
    ensures r.None? <==> forall i :: 0 <= i < |rows| ==> rows[i].id != id
    decreases |rows|
  {
    if rows == [] then None
    else if rows[0].id == id then Some(rows[0])
    else FindRow(rows[1..], id)
  }
}
