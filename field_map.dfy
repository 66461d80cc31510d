/**
 * The field mapper: the Item Field Map rows of a WooCommerce Server copy
 * values from the Item to the product (set_product_fields, which reports
 * whether anything changed) or from the product to the Item
 * (set_item_fields). Only the part of the local field name in front of
 * " | " names the Item field.
 */
module FieldMapper {
  import opened Records
  import opened Text

  /** The Item field a mapping row reads or writes. */
  function LocalField(m: FieldMap): string
  {
    FieldNameHead(m.erpnextField)
  }

  /** The product fields a field map writes. */
  function Targets(maps: seq<FieldMap>): set<string>
  {
    set m | m in maps :: m.woocommerceField
  }

  /** The Item fields a field map writes. */
  function LocalTargets(maps: seq<FieldMap>): set<string>
  {
    set m | m in maps :: LocalField(m)
  }

  predicate DistinctTargets(maps: seq<FieldMap>)
  {
    forall i, j :: 0 <= i < j < |maps| ==> maps[i].woocommerceField != maps[j].woocommerceField
  }

  predicate DistinctLocalFields(maps: seq<FieldMap>)
  {
    forall i, j :: 0 <= i < j < |maps| ==> LocalField(maps[i]) != LocalField(maps[j])
  }

  /** Row `i` is the last row that writes its product field. */
  predicate LastForTarget(maps: seq<FieldMap>, i: int)
    requires 0 <= i < |maps|
  {
    forall j :: i < j < |maps| ==> maps[j].woocommerceField != maps[i].woocommerceField
  }

  /** Row `i` is the last row that writes its Item field. */
  predicate LastForLocal(maps: seq<FieldMap>, i: int)
    requires 0 <= i < |maps|
  {
    forall j :: i < j < |maps| ==> LocalField(maps[j]) != LocalField(maps[i])
  }

  /** One row of set_product_fields: copy the Item value when it differs, and say whether it did. */
  function CopyStep(m: FieldMap, local: Fields, remote: Fields): (Fields, bool)
  {
    var v := Get(local, LocalField(m));
    if v != Get(remote, m.woocommerceField) then (remote[m.woocommerceField := v], true) else (remote, false)
  }

  /** set_product_fields over the rows in order: the product's new fields and the dirty flag. */
  function CopyToRemote(maps: seq<FieldMap>, local: Fields, remote: Fields): (Fields, bool)
    decreases |maps|
  {
    if maps == [] then (remote, false)
    else
      var (f, d) := CopyStep(maps[0], local, remote);
      var (f', d') := CopyToRemote(maps[1..], local, f);
      (f', d || d')
  }

  /** set_item_fields over the rows in order: the Item's new fields (written unconditionally). */
  function CopyToLocal(maps: seq<FieldMap>, remote: Fields, local: Fields): Fields
    decreases |maps|
  {
    if maps == [] then local
    else CopyToLocal(maps[1..], remote, local[LocalField(maps[0]) := Get(remote, maps[0].woocommerceField)])
  }

  lemma TargetsOfTail(maps: seq<FieldMap>)
    requires maps != []
    ensures Targets(maps) == {maps[0].woocommerceField} + Targets(maps[1..])
    ensures LocalTargets(maps) == {LocalField(maps[0])} + LocalTargets(maps[1..])
  {
    assert maps == [maps[0]] + maps[1..];
    forall m | m in maps ensures m == maps[0] || m in maps[1..] {
    }
  }

  /** A product field that no row writes keeps its value. */
  lemma {:induction false} CopyToRemoteKeepsUnmapped(maps: seq<FieldMap>, local: Fields, remote: Fields, k: string)
    requires k !in Targets(maps)
    ensures var r := CopyToRemote(maps, local, remote).0;
      (k in r <==> k in remote) && Get(r, k) == Get(remote, k)
    decreases |maps|
  {
    if maps != [] {
      TargetsOfTail(maps);
      var (f, d) := CopyStep(maps[0], local, remote);
      CopyToRemoteKeepsUnmapped(maps[1..], local, f, k);
    }
  }

  /** A mapped product field ends up with the Item value of the last row that writes it. */
  lemma {:induction false} CopyToRemoteLastWins(maps: seq<FieldMap>, local: Fields, remote: Fields, i: int)
    requires 0 <= i < |maps| && LastForTarget(maps, i)
    ensures Get(CopyToRemote(maps, local, remote).0, maps[i].woocommerceField) == Get(local, LocalField(maps[i]))
    decreases |maps|
  {
    var (f, d) := CopyStep(maps[0], local, remote);
    if i == 0 {
      var w := maps[0].woocommerceField;
      assert Get(f, w) == Get(local, LocalField(maps[0]));
      forall m | m in maps[1..] ensures m.woocommerceField != w {
        var j :| 0 <= j < |maps[1..]| && maps[1..][j] == m;
        assert maps[j + 1] == m;
      }
      CopyToRemoteKeepsUnmapped(maps[1..], local, f, w);
    } else {
      assert LastForTarget(maps[1..], i - 1) by {
        forall j | i - 1 < j < |maps[1..]| ensures maps[1..][j].woocommerceField != maps[1..][i - 1].woocommerceField {
          assert maps[1..][j] == maps[j + 1];
        }
      }
      CopyToRemoteLastWins(maps[1..], local, f, i - 1);
    }
  }

  /** Not dirty means nothing was written. */
  lemma {:induction false} CopyToRemoteCleanIsUnchanged(maps: seq<FieldMap>, local: Fields, remote: Fields)
    ensures !CopyToRemote(maps, local, remote).1 ==> CopyToRemote(maps, local, remote).0 == remote
    decreases |maps|
  {
    if maps != [] {
      var (f, d) := CopyStep(maps[0], local, remote);
      CopyToRemoteCleanIsUnchanged(maps[1..], local, f);
    }
  }

  /** With one row per product field, the flag is set exactly when some row's Item value differed from the product's. */
  lemma {:induction false} CopyToRemoteDirtyIffDiffers(maps: seq<FieldMap>, local: Fields, remote: Fields)
    requires DistinctTargets(maps)
    ensures CopyToRemote(maps, local, remote).1 <==>
      exists i :: 0 <= i < |maps| && Get(local, LocalField(maps[i])) != Get(remote, maps[i].woocommerceField)
    decreases |maps|
  {
    if maps != [] {
      var (f, d) := CopyStep(maps[0], local, remote);
      var tail := maps[1..];
      assert DistinctTargets(tail) by {
        forall i, j | 0 <= i < j < |tail| ensures tail[i].woocommerceField != tail[j].woocommerceField {
          assert tail[i] == maps[i + 1] && tail[j] == maps[j + 1];
        }
      }
      CopyToRemoteDirtyIffDiffers(tail, local, f);
      // the first row's write does not disturb the fields the other rows read
      forall i | 0 <= i < |tail| ensures Get(f, tail[i].woocommerceField) == Get(remote, tail[i].woocommerceField) {
        assert tail[i] == maps[i + 1];
      }
      var lhs := exists i :: 0 <= i < |maps| && Get(local, LocalField(maps[i])) != Get(remote, maps[i].woocommerceField);
      if d {
        assert Get(local, LocalField(maps[0])) != Get(remote, maps[0].woocommerceField);
      } else if lhs {
        var i :| 0 <= i < |maps| && Get(local, LocalField(maps[i])) != Get(remote, maps[i].woocommerceField);
        assert i != 0;
        assert tail[i - 1] == maps[i];
      } else {
        forall i | 0 <= i < |tail| ensures Get(local, LocalField(tail[i])) == Get(f, tail[i].woocommerceField) {
          assert tail[i] == maps[i + 1];
        }
      }
    }
  }

  /**
   * With one row per product field: the flag is set exactly when the
   * product's fields changed, and afterwards every mapped product field
   * holds the value of the Item field it is mapped from.
   */
  lemma CopyToRemoteDirtyIffChanged(maps: seq<FieldMap>, local: Fields, remote: Fields)
    requires DistinctTargets(maps)
    ensures CopyToRemote(maps, local, remote).1 <==> CopyToRemote(maps, local, remote).0 != remote
    ensures forall i :: 0 <= i < |maps| ==>
      Get(CopyToRemote(maps, local, remote).0, maps[i].woocommerceField) == Get(local, LocalField(maps[i]))
  {
    var r := CopyToRemote(maps, local, remote);
    forall i | 0 <= i < |maps|
      ensures Get(r.0, maps[i].woocommerceField) == Get(local, LocalField(maps[i]))
    {
      CopyToRemoteLastWins(maps, local, remote, i);
    }
    CopyToRemoteDirtyIffDiffers(maps, local, remote);
    CopyToRemoteCleanIsUnchanged(maps, local, remote);
    if r.1 {
      var i :| 0 <= i < |maps| && Get(local, LocalField(maps[i])) != Get(remote, maps[i].woocommerceField);
      assert Get(r.0, maps[i].woocommerceField) != Get(remote, maps[i].woocommerceField);
    }
  }

  /** With one row per product field, copying a second time finds nothing to change. */
  lemma CopyToRemoteIdempotent(maps: seq<FieldMap>, local: Fields, remote: Fields)
    requires DistinctTargets(maps)
    ensures var r := CopyToRemote(maps, local, remote).0;
      CopyToRemote(maps, local, r) == (r, false)
  {
    var r := CopyToRemote(maps, local, remote).0;
    CopyToRemoteDirtyIffChanged(maps, local, remote);
    CopyToRemoteDirtyIffDiffers(maps, local, r);
    CopyToRemoteCleanIsUnchanged(maps, local, r);
  }

  /** An Item field that no row writes keeps its value. */
  lemma {:induction false} CopyToLocalKeepsUnmapped(maps: seq<FieldMap>, remote: Fields, local: Fields, k: string)
    requires k !in LocalTargets(maps)
    ensures var r := CopyToLocal(maps, remote, local);
      (k in r <==> k in local) && Get(r, k) == Get(local, k)
    decreases |maps|
  {
    if maps != [] {
      TargetsOfTail(maps);
      CopyToLocalKeepsUnmapped(maps[1..], remote, local[LocalField(maps[0]) := Get(remote, maps[0].woocommerceField)], k);
    }
  }

  /** A mapped Item field ends up with the product value of the last row that writes it. */
  lemma {:induction false} CopyToLocalLastWins(maps: seq<FieldMap>, remote: Fields, local: Fields, i: int)
    requires 0 <= i < |maps| && LastForLocal(maps, i)
    ensures Get(CopyToLocal(maps, remote, local), LocalField(maps[i])) == Get(remote, maps[i].woocommerceField)
    decreases |maps|
  {
    var f := local[LocalField(maps[0]) := Get(remote, maps[0].woocommerceField)];
    if i == 0 {
      var k := LocalField(maps[0]);
      forall m | m in maps[1..] ensures LocalField(m) != k {
        var j :| 0 <= j < |maps[1..]| && maps[1..][j] == m;
        assert maps[j + 1] == m;
      }
      CopyToLocalKeepsUnmapped(maps[1..], remote, f, k);
    } else {
      assert LastForLocal(maps[1..], i - 1) by {
        forall j | i - 1 < j < |maps[1..]| ensures LocalField(maps[1..][j]) != LocalField(maps[1..][i - 1]) {
          assert maps[1..][j] == maps[j + 1];
        }
      }
      CopyToLocalLastWins(maps[1..], remote, f, i - 1);
    }
  }

  /**
   * With one row per Item field and one per product field, a push right
   * after a pull finds nothing to change: the two directions are inverse.
   */
  lemma PullThenPushIsClean(maps: seq<FieldMap>, remote: Fields, local: Fields)
    requires DistinctTargets(maps) && DistinctLocalFields(maps)
    ensures CopyToRemote(maps, CopyToLocal(maps, remote, local), remote) == (remote, false)
  {
    var pulled := CopyToLocal(maps, remote, local);
    forall i | 0 <= i < |maps| ensures Get(pulled, LocalField(maps[i])) == Get(remote, maps[i].woocommerceField) {
      CopyToLocalLastWins(maps, remote, local, i);
    }
    CopyToRemoteDirtyIffDiffers(maps, pulled, remote);
    CopyToRemoteCleanIsUnchanged(maps, pulled, remote);
  }

  /**
   * set_product_fields: copies every mapped Item field whose value differs
   * onto the product and reports whether any did.
   */
  method SetProductFields(maps: seq<FieldMap>, local: Fields, remote: Fields) returns (r: Fields, dirty: bool)
    ensures (r, dirty) == CopyToRemote(maps, local, remote)
    ensures forall k :: k !in Targets(maps) ==> (k in r <==> k in remote) && Get(r, k) == Get(remote, k)
    ensures forall i :: 0 <= i < |maps| && LastForTarget(maps, i) ==>
      Get(r, maps[i].woocommerceField) == Get(local, LocalField(maps[i]))
    ensures !dirty ==> r == remote
    ensures DistinctTargets(maps) ==> (dirty <==> r != remote)
  {
    r, dirty := remote, false;
    var i := 0;
    while i < |maps|
      invariant 0 <= i <= |maps|
      invariant CopyToRemote(maps[i..], local, r).0 == CopyToRemote(maps, local, remote).0
      invariant (dirty || CopyToRemote(maps[i..], local, r).1) == CopyToRemote(maps, local, remote).1
      invariant !dirty ==> r == remote
    {
      assert maps[i..][1..] == maps[i + 1..];
      var m := maps[i];
      var v := Get(local, FieldNameHead(m.erpnextField));
      if v != Get(r, m.woocommerceField) {
        r := r[m.woocommerceField := v];
        dirty := true;
      }
      i := i + 1;
    }
    forall k | k !in Targets(maps) ensures (k in r <==> k in remote) && Get(r, k) == Get(remote, k) {
      CopyToRemoteKeepsUnmapped(maps, local, remote, k);
    }
    forall i | 0 <= i < |maps| && LastForTarget(maps, i)
      ensures Get(r, maps[i].woocommerceField) == Get(local, LocalField(maps[i]))
    {
      CopyToRemoteLastWins(maps, local, remote, i);
    }
    if DistinctTargets(maps) {
      CopyToRemoteDirtyIffChanged(maps, local, remote);
    }
  }
}
