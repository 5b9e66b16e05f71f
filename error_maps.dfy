/**
 * The `errors` objects both client forms keep: a map from a field's key to the
 * message shown under it. Validation writes one entry per field that draws a
 * message, in field order, so a later field with the same key overwrites an
 * earlier one; editing a field deletes its entry when that entry is truthy.
 */
module ErrorMaps {
  import opened Wrappers

  /**
   * `newErrors` after a `forEach` over `items` that sets `newErrors[key(x)] =
   * message(x)` for every item whose message is present.
   */
  function Written<F>(items: seq<F>, key: F -> string, message: F -> Option<string>): map<string, string>
    decreases |items|
  {
    if items == [] then map[]
    else
      var m := Written(items[..|items| - 1], key, message);
      var x := items[|items| - 1];
      match message(x)
      case None => m
      case Some(e) => m[key(x) := e]
  }

  /** A key has an entry exactly when some item with that key drew a message. */
  lemma {:induction false} WrittenKeys<F>(items: seq<F>, key: F -> string, message: F -> Option<string>, k: string)
    ensures k in Written(items, key, message) <==>
      exists i :: 0 <= i < |items| && key(items[i]) == k && message(items[i]).Some?
    decreases |items|
  {
    if items != [] {
      var n := |items| - 1;
      var init := items[..n];
      WrittenKeys(init, key, message, k);
      assert forall i :: 0 <= i < n ==> init[i] == items[i];
      if exists i :: 0 <= i < |items| && key(items[i]) == k && message(items[i]).Some? {
        var i :| 0 <= i < |items| && key(items[i]) == k && message(items[i]).Some?;
        if i < n {
          assert init[i] == items[i];
        }
      }
    }
  }

  /**
   * The entry under a key is the message of the LAST item with that key that
   * drew one: a later item overwrites, a later item without a message does not.
   */
  lemma {:induction false} LastMessageKept<F>(items: seq<F>, key: F -> string, message: F -> Option<string>, i: nat)
    requires i < |items| && message(items[i]).Some?
    requires forall j :: i < j < |items| && key(items[j]) == key(items[i]) ==> message(items[j]).None?
    ensures key(items[i]) in Written(items, key, message)
    ensures Written(items, key, message)[key(items[i])] == message(items[i]).value
    decreases |items|
  {
    var n := |items| - 1;
    var init := items[..n];
    if i < n {
      assert init[i] == items[i];
      forall j | i < j < |init| && key(init[j]) == key(init[i])
        ensures message(init[j]).None?
      {
        assert init[j] == items[j];
      }
      LastMessageKept(init, key, message, i);
    }
  }

  /** `Object.keys(newErrors).length === 0` holds exactly when no item drew a message. */
  lemma NothingWrittenIffAllPass<F>(items: seq<F>, key: F -> string, message: F -> Option<string>)
    ensures |Written(items, key, message)| == 0 <==> forall i :: 0 <= i < |items| ==> message(items[i]).None?
  {
    var m := Written(items, key, message);
    if |m| == 0 {
      forall i | 0 <= i < |items| ensures message(items[i]).None? {
        WrittenKeys(items, key, message, key(items[i]));
        assert key(items[i]) !in m;
      }
    } else {
      var k :| k in m;
      WrittenKeys(items, key, message, k);
    }
  }

  /** With distinct keys, every item that drew a message shows exactly that message. */
  lemma DistinctKeysKeepEveryMessage<F>(items: seq<F>, key: F -> string, message: F -> Option<string>, i: nat)
    requires forall j, k :: 0 <= j < k < |items| ==> key(items[j]) != key(items[k])
    requires i < |items| && message(items[i]).Some?
    ensures key(items[i]) in Written(items, key, message)
    ensures Written(items, key, message)[key(items[i])] == message(items[i]).value
  {
    LastMessageKept(items, key, message, i);
  }

  /**
   * `handleChange`'s clean-up: `if (errors[name]) delete errors[name]`. Only a
   * truthy (non-empty) message is removed; every other entry is kept.
   */
  function ClearError(errors: map<string, string>, name: string): (r: map<string, string>)
    ensures name in r <==> name in errors && errors[name] == ""
    ensures name in r ==> r[name] == ""
    ensures forall k :: k != name ==> (k in r <==> k in errors) && (k in r ==> r[k] == errors[k])
  {
    if name in errors && errors[name] != "" then errors - {name} else errors
  }
}
