/** The `config` subcommand: read or set one value of the configuration file
    at a dotted key path such as `build.theme`. */
module ConfigCommand {
  import opened Outcomes
  import opened Text
  import opened Values

  /** What the command does once the configuration file has been read:
      print one value, print nothing, or write the file back. */
  datatype Outcome =
    | Shown(value: Value)
    | Nothing
    | Written(cfg: map<string, Value>)

  /** One turn of the loop that walks the intermediate keys: `crt` is the
      node at keys[..i].  A section holding keys[i] is entered as it is; a
      section without it gets a new empty section there; a string that does
      not contain keys[i] is replaced, under its parent, by a section holding
      an empty section at keys[i]; a string containing keys[i] (Python's
      substring test passes, then indexing a string by a string fails) and
      any other scalar (no `in` at all) raise a TypeError. */
  function Step(doc: Value, keys: seq<string>, i: nat): (r: Result<Value>)
    requires doc.Section? && i < |keys| && At(doc, keys[..i]).Some?
    ensures r.Ok? ==> r.value.Section? && At(r.value, keys[..i + 1]).Some?
  {
    var k := keys[i];
    assert keys[..i + 1] == keys[..i] + [k];
    match At(doc, keys[..i]).value
    case Section(m) =>
      if k in m then
        AtAppend(doc, keys[..i], k);
        Ok(doc)
      else
        var d := Put(doc, keys[..i], Section(m[k := Section(map[])]));
        AtAppend(d, keys[..i], k);
        Ok(d)
    case Str(s) =>
      if Contains(s, k) then Err(Uncaught("TypeError: string indices must be integers"))
      else
        var d := Put(doc, keys[..i], Section(map[k := Section(map[])]));
        AtAppend(d, keys[..i], k);
        Ok(d)
    case Literal(_) => Err(Uncaught("TypeError: argument is not iterable"))
  }

  /** The file contents after the first i turns of the loop; the path
      keys[..i] then exists. */
  function Walk(doc: Value, keys: seq<string>, i: nat): (r: Result<Value>)
    requires doc.Section? && i < |keys|
    ensures r.Ok? ==> r.value.Section? && At(r.value, keys[..i]).Some?
    decreases i
  {
    if i == 0 then Ok(doc)
    else match Walk(doc, keys, i - 1)
      case Err(f) => Err(f)
      case Ok(d) => Step(d, keys, i - 1)
  }

  /** The whole command on the file contents cfg, for the pieces keys of the
      dotted name: with no value, look the last key up in the node the walk
      reached (a non-section there raises a TypeError); with a value, store
      it there, replacing a non-section node by a fresh section. */
  function Command(cfg: map<string, Value>, keys: seq<string>, value: Option<string>): (r: Result<Outcome>)
    requires |keys| >= 1
    ensures value.None? && r.Ok? ==> !r.value.Written?
    ensures value.Some? && r.Ok? ==> r.value.Written?
  {
    var n := |keys|;
    match Walk(Section(cfg), keys, n - 1)
    case Err(f) => Err(f)
    case Ok(d) =>
      var crt := At(d, keys[..n - 1]).value;
      var k := keys[n - 1];
      match value
      case None =>
        (match crt
         case Section(m) => Ok(if k in m then Shown(m[k]) else Nothing)
         case _ => Err(Uncaught("TypeError: string indices must be integers")))
      case Some(x) =>
        var node := match crt
          case Section(m) => Section(m[k := Str(x)])
          case _ => Section(map[k := Str(x)]);
        Ok(Written(Put(d, keys[..n - 1], node).entries))
  }

  /** The key-walking loop of the command, on the file contents cfg. */
  method DescendKeys(cfg: map<string, Value>, keys: seq<string>) returns (r: Result<Value>)
    requires |keys| >= 1
    ensures r == Walk(Section(cfg), keys, |keys| - 1)
  {
    var doc := Section(cfg);
    var i := 0;
    while i < |keys| - 1
      invariant 0 <= i <= |keys| - 1
      invariant Walk(Section(cfg), keys, i) == Ok(doc)
    {
      var crt := At(doc, keys[..i]).value;
      if crt.Section? && keys[i] in crt.entries {
        // the key is there: descend into it
      } else if crt.Section? {
        doc := Put(doc, keys[..i], Section(crt.entries[keys[i] := Section(map[])]));
      } else if crt.Str? && !Contains(crt.text, keys[i]) {
        doc := Put(doc, keys[..i], Section(map[keys[i] := Section(map[])]));
      } else {
        WalkErrSticks(Section(cfg), keys, i + 1, |keys| - 1);
        return Err(if crt.Str? then Uncaught("TypeError: string indices must be integers")
                   else Uncaught("TypeError: argument is not iterable"));
      }
      i := i + 1;
    }
    return Ok(doc);
  }

  /** The command for the dotted name `name`, split at its dots. */
  method Execute(cfg: map<string, Value>, name: string, value: Option<string>) returns (r: Result<Outcome>)
    ensures r == Command(cfg, SplitDots(name), value)
  {
    var keys := SplitDots(name);
    var n := |keys|;
    var walked := DescendKeys(cfg, keys);
    if walked.Err? {
      return Err(walked.failure);
    }
    var doc := walked.value;
    var crt := At(doc, keys[..n - 1]).value;
    var k := keys[n - 1];
    if value.None? {
      if !crt.Section? {
        return Err(Uncaught("TypeError: string indices must be integers"));
      }
      return Ok(if k in crt.entries then Shown(crt.entries[k]) else Nothing);
    }
    var node := if crt.Section? then Section(crt.entries[k := Str(value.value)])
                else Section(map[k := Str(value.value)]);
    return Ok(Written(Put(doc, keys[..n - 1], node).entries));
  }

  // ---------------------------------------------------------------------
  // What the walk does to the file contents

  /** After i turns the node at keys[..i] is either the one the file had
      there or a section the walk has just created empty. */
  lemma {:induction false} WalkFresh(doc: Value, keys: seq<string>, i: nat)
    requires doc.Section? && i < |keys| && Walk(doc, keys, i).Ok?
    ensures At(Walk(doc, keys, i).value, keys[..i]) == At(doc, keys[..i])
         || At(Walk(doc, keys, i).value, keys[..i]) == Some(Section(map[]))
    decreases i
  {
    if i > 0 {
      WalkFresh(doc, keys, i - 1);
      var d := Walk(doc, keys, i - 1).value;
      var k := keys[i - 1];
      var pre := keys[..i - 1];
      assert keys[..i] == pre + [k];
      var d' := Walk(doc, keys, i).value;
      AtAppend(d', pre, k);
      AtAppend(doc, pre, k);
      AtAppend(d, pre, k);
    }
  }

  /** A path the file already has is walked without any change. */
  lemma {:induction false} WalkKeepsExisting(doc: Value, keys: seq<string>, i: nat)
    requires doc.Section? && i < |keys| && At(doc, keys[..i]).Some?
    ensures Walk(doc, keys, i) == Ok(doc)
    decreases i
  {
    if i > 0 {
      var pre := keys[..i - 1];
      assert keys[..i] == pre + [keys[i - 1]];
      AtAppend(doc, pre, keys[i - 1]);
      WalkKeepsExisting(doc, keys, i - 1);
    }
  }

  /** The walk changes nothing outside the first key's entry. */
  lemma {:induction false} WalkFrame(doc: Value, keys: seq<string>, i: nat)
    requires doc.Section? && i < |keys| && Walk(doc, keys, i).Ok?
    ensures SameOutside(doc, Walk(doc, keys, i).value, keys[0])
    decreases i
  {
    if i > 0 {
      WalkFrame(doc, keys, i - 1);
      var d := Walk(doc, keys, i - 1).value;
      var pre := keys[..i - 1];
      if i - 1 > 0 {
        assert pre[0] == keys[0];
        var crt := At(d, pre).value;
        if crt.Section? && keys[i - 1] !in crt.entries {
          PutFrame(d, pre, Section(crt.entries[keys[i - 1] := Section(map[])]));
        } else if crt.Str? {
          PutFrame(d, pre, Section(map[keys[i - 1] := Section(map[])]));
        }
      }
    }
  }

  /** One turn of the walk leaves every sibling of the path as it was:
      leaving keys at depth j by a key other than keys[j] reaches the same
      value before and after. */
  lemma StepDeepFrame(doc: Value, keys: seq<string>, i: nat, j: nat, t: string)
    requires doc.Section? && i < |keys| && At(doc, keys[..i]).Some? && Step(doc, keys, i).Ok?
    requires j < |keys| && t != keys[j]
    ensures At(Step(doc, keys, i).value, keys[..j] + [t]) == At(doc, keys[..j] + [t])
  {
    var pre := keys[..i];
    var k := keys[i];
    var crt := At(doc, pre).value;
    if crt.Section? && k in crt.entries {
      return;
    }
    var node := if crt.Section? then Section(crt.entries[k := Section(map[])]) else Section(map[k := Section(map[])]);
    var d := Step(doc, keys, i).value;
    assert d == Put(doc, pre, node);
    if j < i {
      assert pre[..j] == keys[..j] && pre[j] == keys[j];
      PutDeepFrame(doc, pre, node, j, t);
    } else if j == i {
      PutInside(doc, pre, node, [t]);
      AtAppend(doc, pre, t);
      assert [t][1..] == [];
    } else {
      var rest := keys[i + 1..j] + [t];
      assert keys[..j] + [t] == keys[..i + 1] + rest;
      assert keys[..i + 1] == pre + [k];
      PutInside(doc, pre, node, [k]);
      assert [k][1..] == [];
      AtConcat(d, keys[..i + 1], rest);
      AtConcat(doc, keys[..i + 1], rest);
      AtAppend(doc, pre, k);
      assert At(Section(map[]), rest) == None;
    }
  }

  /** The whole walk leaves every sibling of the path as it was. */
  lemma {:induction false} WalkDeepFrame(doc: Value, keys: seq<string>, i: nat, j: nat, t: string)
    requires doc.Section? && i < |keys| && Walk(doc, keys, i).Ok?
    requires j < |keys| && t != keys[j]
    ensures At(Walk(doc, keys, i).value, keys[..j] + [t]) == At(doc, keys[..j] + [t])
    decreases i
  {
    if i > 0 {
      WalkDeepFrame(doc, keys, i - 1, j, t);
      StepDeepFrame(Walk(doc, keys, i - 1).value, keys, i - 1, j, t);
    }
  }

  /** Once the walk fails it stays failed. */
  lemma {:induction false} WalkErrSticks(doc: Value, keys: seq<string>, i: nat, j: nat)
    requires doc.Section? && i <= j < |keys| && Walk(doc, keys, i).Err?
    ensures Walk(doc, keys, j) == Walk(doc, keys, i)
    decreases j
  {
    if j > i {
      WalkErrSticks(doc, keys, i, j - 1);
    }
  }

  // ---------------------------------------------------------------------
  // Read mode

  /** Without a value, the command prints the value at the dotted path
      exactly when the file has one there. */
  lemma ReadShowsStoredValue(cfg: map<string, Value>, keys: seq<string>, v: Value)
    requires |keys| >= 1
    ensures Command(cfg, keys, None) == Ok(Shown(v)) <==> At(Section(cfg), keys) == Some(v)
  {
    var n := |keys|;
    var doc := Section(cfg);
    var pre := keys[..n - 1];
    var k := keys[n - 1];
    assert keys == pre + [k];
    AtAppend(doc, pre, k);
    if At(doc, keys) == Some(v) {
      WalkKeepsExisting(doc, keys, n - 1);
    }
    if Command(cfg, keys, None) == Ok(Shown(v)) {
      WalkFresh(doc, keys, n - 1);
    }
  }

  /** Without a value, a missing path prints nothing (or fails on a scalar
      in the way): the command never reports a value the file lacks. */
  lemma ReadMissingShowsNothing(cfg: map<string, Value>, keys: seq<string>)
    requires |keys| >= 1 && At(Section(cfg), keys).None?
    ensures Command(cfg, keys, None).Ok? ==> Command(cfg, keys, None) == Ok(Nothing)
  {
    var r := Command(cfg, keys, None);
    if r.Ok? && r.value.Shown? {
      ReadShowsStoredValue(cfg, keys, r.value.value);
    }
  }

  // ---------------------------------------------------------------------
  // Write mode

  /** With a value, the written file holds that value at the dotted path,
      and every shorter prefix of the path leads to a section. */
  lemma SetStoresValue(cfg: map<string, Value>, keys: seq<string>, x: string)
    requires |keys| >= 1 && Command(cfg, keys, Some(x)).Ok?
    ensures Command(cfg, keys, Some(x)).value.Written?
    ensures At(Section(Command(cfg, keys, Some(x)).value.cfg), keys) == Some(Str(x))
    ensures forall j :: 0 <= j < |keys| ==>
              At(Section(Command(cfg, keys, Some(x)).value.cfg), keys[..j]).Some? &&
              At(Section(Command(cfg, keys, Some(x)).value.cfg), keys[..j]).value.Section?
  {
    var n := |keys|;
    var d := Walk(Section(cfg), keys, n - 1).value;
    var pre := keys[..n - 1];
    var k := keys[n - 1];
    var crt := At(d, pre).value;
    var node := if crt.Section? then Section(crt.entries[k := Str(x)]) else Section(map[k := Str(x)]);
    var out := Put(d, pre, node);
    assert Section(out.entries) == out;
    assert keys == pre + [k];
    AtAppend(out, pre, k);
    forall j | 0 <= j < n
      ensures At(out, keys[..j]).Some? && At(out, keys[..j]).value.Section?
    {
      if j < n - 1 {
        PutPrefixSections(d, pre, node, j);
        assert pre[..j] == keys[..j];
      } else {
        assert keys[..j] == pre;
      }
    }
  }

  /** With a value, the file is written back with nothing changed off the
      dotted path: every top-level section other than the first key's is
      unchanged, and so is every sibling of every node along the path
      (setting `a.b.c` keeps `a.x` and `a.b.y`). */
  lemma SetKeepsOtherSections(cfg: map<string, Value>, keys: seq<string>, x: string)
    requires |keys| >= 1 && Command(cfg, keys, Some(x)).Ok?
    ensures Command(cfg, keys, Some(x)).value.Written?
    ensures forall t :: t != keys[0] ==>
              (t in Command(cfg, keys, Some(x)).value.cfg <==> t in cfg)
    ensures forall t :: t != keys[0] && t in cfg ==>
              Command(cfg, keys, Some(x)).value.cfg[t] == cfg[t]
    ensures forall j, t :: 0 <= j < |keys| && t != keys[j] ==>
              At(Section(Command(cfg, keys, Some(x)).value.cfg), keys[..j] + [t]) == At(Section(cfg), keys[..j] + [t])
  {
    var n := |keys|;
    WalkFrame(Section(cfg), keys, n - 1);
    var d := Walk(Section(cfg), keys, n - 1).value;
    var pre := keys[..n - 1];
    var k := keys[n - 1];
    var crt := At(d, pre).value;
    var node := if crt.Section? then Section(crt.entries[k := Str(x)]) else Section(map[k := Str(x)]);
    if n > 1 {
      assert pre[0] == keys[0];
      PutFrame(d, pre, node);
    }
    forall j, t | 0 <= j < n && t != keys[j]
      ensures At(Section(Command(cfg, keys, Some(x)).value.cfg), keys[..j] + [t]) == At(Section(cfg), keys[..j] + [t])
    {
      SetLeavesSibling(cfg, keys, x, j, t);
    }
  }

  /** The deep frame of a set for one depth j and one key t. */
  lemma SetLeavesSibling(cfg: map<string, Value>, keys: seq<string>, x: string, j: nat, t: string)
    requires |keys| >= 1 && Command(cfg, keys, Some(x)).Ok?
    requires j < |keys| && t != keys[j]
    ensures Command(cfg, keys, Some(x)).value.Written?
    ensures At(Section(Command(cfg, keys, Some(x)).value.cfg), keys[..j] + [t]) == At(Section(cfg), keys[..j] + [t])
  {
    var n := |keys|;
    var d := Walk(Section(cfg), keys, n - 1).value;
    var pre := keys[..n - 1];
    var k := keys[n - 1];
    var crt := At(d, pre).value;
    var node := match crt
      case Section(m) => Section(m[k := Str(x)])
      case _ => Section(map[k := Str(x)]);
    var out := Put(d, pre, node);
    assert Walk(Section(cfg), keys, n - 1) == Ok(d);
    assert Command(cfg, keys, Some(x)) == Ok(Written(out.entries));
    assert Section(out.entries) == out;
    WalkDeepFrame(Section(cfg), keys, n - 1, j, t);
    if j < n - 1 {
      assert pre[..j] == keys[..j] && pre[j] == keys[j];
      PutDeepFrame(d, pre, node, j, t);
    } else {
      assert keys[..j] == pre;
      PutInside(d, pre, node, [t]);
      AtAppend(d, pre, t);
      assert [t][1..] == [];
    }
  }

  /** Setting a key below a string that the file holds at the parent path
      replaces the string by a section holding just the new key. */
  lemma SetOverStringReplacesIt(cfg: map<string, Value>, keys: seq<string>, x: string, s: string)
    requires |keys| >= 2
    requires At(Section(cfg), keys[..|keys| - 1]) == Some(Str(s))
    ensures Command(cfg, keys, Some(x)).Ok?
    ensures Command(cfg, keys, Some(x)).value.Written?
    ensures At(Section(Command(cfg, keys, Some(x)).value.cfg), keys[..|keys| - 1])
            == Some(Section(map[keys[|keys| - 1] := Str(x)]))
  {
    var n := |keys|;
    WalkKeepsExisting(Section(cfg), keys, n - 1);
  }

  /** A string in the middle of the path that contains the next key makes
      the command fail, in both modes. */
  lemma StringContainingKeyFails(cfg: map<string, Value>, keys: seq<string>, value: Option<string>, j: nat, s: string)
    requires 1 <= j < |keys| - 1
    requires At(Section(cfg), keys[..j]) == Some(Str(s)) && Contains(s, keys[j])
    ensures Command(cfg, keys, value).Err?
  {
    WalkKeepsExisting(Section(cfg), keys, j);
    WalkErrSticks(Section(cfg), keys, j + 1, |keys| - 1);
  }
}
