/** The admin console's choice of a label for a key that is being added. */
module Console {
  import opened ConfigModel
  import Text

  lemma {:induction false} LabelRange(from: nat, end: nat) returns (labels: set<string>)
    requires from <= end
    ensures labels == (set m: nat | from <= m < end :: Text.KeyLabel(m))
    ensures |labels| == end - from
    decreases end
  {
    labels := (set m: nat | from <= m < end :: Text.KeyLabel(m));
    if from < end {
      var rest := LabelRange(from, end - 1);
      var last := Text.KeyLabel(end - 1);
      if last in rest {
        var m: nat :| from <= m < end - 1 && Text.KeyLabel(m) == last;
        Text.KeyLabelInjective(m, end - 1);
      }
      assert labels == rest + {last};
    } else {
      assert labels == {};
    }
  }

  /** Among n keys at most n labels are taken, so not all of key-from to key-(from + n) are. */
  lemma TooManyTaken(labels: set<string>, from: nat, end: nat)
    requires from <= end
    requires forall m: nat :: from <= m < end ==> Text.KeyLabel(m) in labels
    ensures end - from <= |labels|
  {
    var range := LabelRange(from, end);
    assert range <= labels;
    SubsetSize(range, labels);
  }

  lemma {:induction false} SubsetSize(a: set<string>, b: set<string>)
    requires a <= b
    ensures |a| <= |b|
  {
    if a != {} {
      var x :| x in a;
      SubsetSize(a - {x}, b - {x});
    }
  }

  lemma {:induction false} SetOfSeqSize(keys: seq<string>)
    ensures |set s | s in keys| <= |keys|
  {
    var all := set s | s in keys;
    if keys == [] {
      assert all == {};
    } else {
      var front := keys[..|keys| - 1];
      SetOfSeqSize(front);
      assert all == (set s | s in front) + {keys[|keys| - 1]};
    }
  }

  function LabelsOf(keys: seq<KeyConfig>): (labels: seq<string>)
    ensures |labels| == |keys|
  {
    seq(|keys|, i requires 0 <= i < |keys| => keys[i].keyLabel)
  }

  /** A label chosen this way meets neither a given label nor one that validation will give: adding the key
      keeps a pool whose labels do not clash that way, and then validation leaves them all distinct. */
  lemma AddedKeyNeverClashes(keys: seq<KeyConfig>, m: nat, secret: string)
    requires NoLabelClash(keys) && |keys| < m && Text.KeyLabel(m) !in LabelsOf(keys)
    ensures NoLabelClash(keys + [KeyConfig(Text.KeyLabel(m), secret)])
    ensures UniqueLabels(Labelled(keys + [KeyConfig(Text.KeyLabel(m), secret)]))
  {
    var more := keys + [KeyConfig(Text.KeyLabel(m), secret)];
    forall i | 0 <= i < |keys|
      ensures keys[i].keyLabel != Text.KeyLabel(m) && Text.KeyLabel(i + 1) != Text.KeyLabel(m)
    {
      assert LabelsOf(keys)[i] == keys[i].keyLabel;
      if Text.KeyLabel(i + 1) == Text.KeyLabel(m) {
        Text.KeyLabelInjective(i + 1, m);
      }
    }
    LabelsDistinctIff(more);
  }

  /** A label no key has yet, key-m for the least m above the number of keys that is free; the search ends
      by 2n + 1 for n keys. */
  method NextKeyLabel(labels: seq<string>) returns (next: string)
    ensures next !in labels
    ensures exists m: nat :: |labels| + 1 <= m <= 2 * |labels| + 1 && next == Text.KeyLabel(m)
              && forall l: nat :: |labels| + 1 <= l < m ==> Text.KeyLabel(l) in labels
    ensures forall keys: seq<KeyConfig>, secret: string ::
      LabelsOf(keys) == labels && NoLabelClash(keys) ==> NoLabelClash(keys + [KeyConfig(next, secret)])
  {
    var index := |labels| + 1;
    next := Text.KeyLabel(index);
    var taken := set s | s in labels;
    SetOfSeqSize(labels);
    while next in taken
      invariant |labels| + 1 <= index <= 2 * |labels| + 1
      invariant next == Text.KeyLabel(index)
      invariant forall m: nat :: |labels| + 1 <= m < index ==> Text.KeyLabel(m) in taken
      decreases 2 * |labels| + 1 - index
    {
      TooManyTaken(taken, |labels| + 1, index + 1);
      index := index + 1;
      next := Text.KeyLabel(index);
    }
    forall keys: seq<KeyConfig>, secret: string | LabelsOf(keys) == labels && NoLabelClash(keys)
      ensures NoLabelClash(keys + [KeyConfig(next, secret)])
    {
      AddedKeyNeverClashes(keys, index, secret);
    }
  }
}
