/**
 * The string logic of the `AiAction` derive macro (bevy_real_ai_derive/src/lib.rs):
 * the action name computed from the struct name, the text of the generated
 * `schema_description`, the payload built by the generated `into_action_payload`
 * and the generated `register`. Characters are ASCII.
 */
module Derive {
  import opened Wrappers
  import opened Json
  import opened Text
  import opened ActionPayloads
  import opened Parse
  import opened Actions

  predicate IsUpper(c: char) {
    'A' <= c <= 'Z'
  }

  /** `to_ascii_lowercase` of an uppercase letter. */
  function Lower(c: char): (r: char)
    requires IsUpper(c)
    ensures 'a' <= r <= 'z' && r != '_'
  {
    (c as int + 32) as char
  }

  /** What one character at position `i` becomes in snake case. */
  function SnakePiece(c: char, i: nat): string {
    if IsUpper(c) then (if i > 0 then "_" else "") + [Lower(c)] else [c]
  }

  /** `to_snake_case`, one character after another. */
  function SnakeCase(s: string): string
    decreases |s|
  {
    if s == [] then ""
    else SnakeCase(s[..|s| - 1]) + SnakePiece(s[|s| - 1], |s| - 1)
  }

  /** `to_snake_case`: the loop pushing into the result string. */
  method ToSnakeCase(s: string) returns (result: string)
    ensures result == SnakeCase(s)
  {
    result := "";
    var i := 0;
    while i < |s|
      invariant 0 <= i <= |s|
      invariant result == SnakeCase(s[..i])
    {
      var ch := s[i];
      if IsUpper(ch) {
        if i > 0 {
          result := result + ['_'];
        }
        result := result + [Lower(ch)];
      } else {
        result := result + [ch];
      }
      assert s[..i + 1][..i] == s[..i];
      i := i + 1;
    }
    assert s[..i] == s;
  }

  /** The number of uppercase letters after the first position. */
  function UppersAfterFirst(s: string): nat
    decreases |s|
  {
    if |s| <= 1 then 0
    else UppersAfterFirst(s[..|s| - 1]) + (if IsUpper(s[|s| - 1]) then 1 else 0)
  }

  /** Each character lowercased when it is an uppercase letter, kept otherwise. */
  function Lowered(s: string): (r: string)
    ensures |r| == |s|
  {
    seq(|s|, i requires 0 <= i < |s| => if IsUpper(s[i]) then Lower(s[i]) else s[i])
  }

  /** The string without its underscores. */
  function Strip(s: string): string
    decreases |s|
  {
    if s == [] then ""
    else Strip(s[..|s| - 1]) + (if s[|s| - 1] == '_' then "" else [s[|s| - 1]])
  }

  lemma {:induction false} StripAppend(a: string, b: string)
    ensures Strip(a + b) == Strip(a) + Strip(b)
    decreases |b|
  {
    if b == [] {
      assert a + b == a;
    } else {
      var b' := b[..|b| - 1];
      assert (a + b)[..|a + b| - 1] == a + b';
      StripAppend(a, b');
    }
  }

  /** Output length is the input length plus one underscore per uppercase letter after position 0. */
  lemma {:induction false} SnakeCaseLength(s: string)
    ensures |SnakeCase(s)| == |s| + UppersAfterFirst(s)
    decreases |s|
  {
    if s != [] {
      SnakeCaseLength(s[..|s| - 1]);
    }
  }

  /** No uppercase letter survives. */
  lemma {:induction false} SnakeCaseHasNoUpper(s: string)
    ensures forall k :: 0 <= k < |SnakeCase(s)| ==> !IsUpper(SnakeCase(s)[k])
    decreases |s|
  {
    if s != [] {
      SnakeCaseHasNoUpper(s[..|s| - 1]);
    }
  }

  /** A string with no uppercase letter is its own snake case. */
  lemma {:induction false} SnakeCaseKeepsLower(s: string)
    requires forall k :: 0 <= k < |s| ==> !IsUpper(s[k])
    ensures SnakeCase(s) == s
    decreases |s|
  {
    if s != [] {
      SnakeCaseKeepsLower(s[..|s| - 1]);
      assert s[..|s| - 1] + [s[|s| - 1]] == s;
    }
  }

  /**
   * Apart from the underscores it inserts, snake case is the input with every
   * uppercase letter lowercased, in the same order.
   */
  lemma {:induction false} SnakeCaseIsLoweredPlusUnderscores(s: string)
    ensures Strip(SnakeCase(s)) == Strip(Lowered(s))
    decreases |s|
  {
    if s != [] {
      var init := s[..|s| - 1];
      var c := s[|s| - 1];
      SnakeCaseIsLoweredPlusUnderscores(init);
      var lc := if IsUpper(c) then Lower(c) else c;
      assert Lowered(s) == Lowered(init) + [lc];
      StripAppend(SnakeCase(init), SnakePiece(c, |s| - 1));
      StripAppend(Lowered(init), [lc]);
      if IsUpper(c) && |s| - 1 > 0 {
        StripAppend("_", [lc]);
        assert Strip("_") == "" by {
          assert "_"[..0] == "";
        }
      }
      assert Strip(SnakePiece(c, |s| - 1)) == Strip([lc]);
    }
  }

  /** Appending text without uppercase letters appends it unchanged. */
  lemma {:induction false} SnakeCaseAppendLower(a: string, b: string)
    requires forall k :: 0 <= k < |b| ==> !IsUpper(b[k])
    ensures SnakeCase(a + b) == SnakeCase(a) + b
    decreases |b|
  {
    if b == [] {
      assert a + b == a;
    } else {
      var b' := b[..|b| - 1];
      assert (a + b)[..|a + b| - 1] == a + b';
      SnakeCaseAppendLower(a, b');
    }
  }

  /** Appending one uppercase letter appends it lowercased, after `_` unless it comes first. */
  lemma SnakeCaseAppendUpper(a: string, c: char)
    requires IsUpper(c)
    ensures SnakeCase(a + [c]) == SnakeCase(a) + (if a == [] then "" else "_") + [Lower(c)]
  {
    assert (a + [c])[..|a|] == a;
  }

  /** A word (one uppercase letter, then none) appended to `a` becomes `_` (unless `a` is empty), the letter lowercased, and the rest. */
  lemma SnakeCaseAppendWord(a: string, c: char, rest: string)
    requires IsUpper(c)
    requires forall k :: 0 <= k < |rest| ==> !IsUpper(rest[k])
    ensures SnakeCase(a + [c] + rest) == SnakeCase(a) + (if a == [] then "" else "_") + [Lower(c)] + rest
  {
    SnakeCaseAppendUpper(a, c);
    SnakeCaseAppendLower(a + [c], rest);
  }

  lemma SnakeCaseSpawn()
    ensures SnakeCase("Spawn") == "spawn"
  {
    SnakeCaseAppendWord("", 'S', "pawn");
    assert [] + ['S'] + "pawn" == "Spawn";
  }

  /** The action name of the macro's documentation. */
  lemma SnakeCaseSpawnEntityAction()
    ensures SnakeCase("SpawnEntityAction") == "spawn_entity_action"
  {
    SnakeCaseSpawnEntity();
    SnakeCaseAppendWord("SpawnEntity", 'A', "ction");
    assert "SpawnEntity" + ['A'] + "ction" == "SpawnEntityAction";
  }

  lemma SnakeCaseSpawnEntity()
    ensures SnakeCase("SpawnEntity") == "spawn_entity"
  {
    SnakeCaseSpawn();
    SnakeCaseAppendWord("Spawn", 'E', "ntity");
    assert "Spawn" + ['E'] + "ntity" == "SpawnEntity";
  }

  /** The action name of the typed-action test. */
  lemma SnakeCaseSpawnAction()
    ensures SnakeCase("SpawnAction") == "spawn_action"
  {
    SnakeCaseSpawn();
    SnakeCaseAppendWord("Spawn", 'A', "ction");
    assert "Spawn" + ['A'] + "ction" == "SpawnAction";
  }

  /** One line of the schema text: `  "<name>": <<type>>`. */
  function FieldLine(field: (string, SchemaType)): string {
    "  \"" + field.0 + "\": <" + TypeName(field.1) + ">"
  }

  function FieldLines(fields: seq<(string, SchemaType)>): (r: seq<string>)
    ensures |r| == |fields|
    ensures forall k :: 0 <= k < |fields| ==> r[k] == FieldLine(fields[k])
  {
    seq(|fields|, k requires 0 <= k < |fields| => FieldLine(fields[k]))
  }

  const SchemaHeader := "JSON object with fields:\n{\n"
  const SchemaFooter := "\n}"

  /**
   * The generated `schema_description`: a header, the field lines in declaration
   * order separated by `,\n`, and a closing brace on its own line.
   */
  function SchemaDescription(fields: seq<(string, SchemaType)>): (r: string)
    ensures |r| >= |SchemaHeader| + |SchemaFooter|
    ensures r[..|SchemaHeader|] == SchemaHeader
    ensures r[|r| - |SchemaFooter|..] == SchemaFooter
  {
    SchemaHeader + Join(FieldLines(fields), ",\n") + SchemaFooter
  }

  lemma {:induction false} JoinAppend(parts: seq<string>, p: string, sep: string)
    requires parts != []
    ensures Join(parts + [p], sep) == Join(parts, sep) + sep + p
    decreases |parts|
  {
    if |parts| == 1 {
      assert (parts + [p])[1..] == [p];
    } else {
      JoinAppend(parts[1..], p, sep);
      assert (parts + [p])[1..] == parts[1..] + [p];
    }
  }

  /**
   * Declaring one more field adds its line at the end, after a `,\n` separator and
   * just before the closing brace: the lines keep the field declaration order.
   */
  lemma AddFieldAppendsLine(fields: seq<(string, SchemaType)>, f: (string, SchemaType))
    requires fields != []
    ensures SchemaDescription(fields + [f]) ==
      SchemaDescription(fields)[..|SchemaDescription(fields)| - |SchemaFooter|] + ",\n" + FieldLine(f) + SchemaFooter
  {
    var lines := FieldLines(fields);
    assert FieldLines(fields + [f]) == lines + [FieldLine(f)];
    JoinAppend(lines, FieldLine(f), ",\n");
    WrapAppend(SchemaHeader, Join(lines, ",\n"), ",\n", FieldLine(f), SchemaFooter);
  }

  /** Appending inside a wrapper: what goes before the closing part `f` is extended by `sep + x`. */
  lemma WrapAppend(h: string, body: string, sep: string, x: string, f: string)
    ensures h + (body + sep + x) + f == (h + body + f)[..|h + body + f| - |f|] + sep + x + f
  {
    assert (h + body + f)[..|h + body + f| - |f|] == h + body;
  }


  /** A struct without named fields gets an empty field list. */
  lemma NoFieldsSchema()
    ensures SchemaDescription([]) == "JSON object with fields:\n{\n\n}"
  {
  }

  lemma JoinThree(a: string, b: string, c: string, sep: string)
    ensures Join([a, b, c], sep) == a + sep + b + sep + c
  {
    assert [a, b, c][1..] == [b, c];
    assert [b, c][1..] == [c];
    assert Join([b, c], sep) == b + sep + c;
    assert Join([a, b, c], sep) == a + sep + (b + sep + c);
  }

  lemma SpawnActionFieldLines()
    ensures FieldLines([("name", StringType), ("x", I32), ("y", I32)]) ==
      ["  \"name\": <string>", "  \"x\": <integer>", "  \"y\": <integer>"]
  {
    assert FieldLine(("name", StringType)) == "  \"name\": <string>";
    assert FieldLine(("x", I32)) == "  \"x\": <integer>";
    assert FieldLine(("y", I32)) == "  \"y\": <integer>";
  }

  /** The schema of the typed-action test's `SpawnAction { name: String, x: i32, y: i32 }`. */
  lemma SpawnActionSchema()
    ensures SchemaDescription([("name", StringType), ("x", I32), ("y", I32)]) ==
      "JSON object with fields:\n{\n" +
      "  \"name\": <string>" + ",\n" +
      "  \"x\": <integer>" + ",\n" +
      "  \"y\": <integer>" +
      "\n}"
  {
    SpawnActionFieldLines();
    JoinThree("  \"name\": <string>", "  \"x\": <integer>", "  \"y\": <integer>", ",\n");
  }

  /**
   * The generated `into_action_payload`: `ActionPayload::new` with the action name,
   * then one `with_param` per field in declaration order.
   */
  function IntoActionPayload(actionName: string, values: seq<(string, Json)>): (p: ActionPayload)
    ensures p.name == actionName
    decreases |values|
  {
    if values == [] then New(actionName)
    else
      var last := values[|values| - 1];
      WithParam(IntoActionPayload(actionName, values[..|values| - 1]), last.0, last.1)
  }

  /** The field names, in declaration order. */
  function Names(values: seq<(string, Json)>): (r: seq<string>)
    ensures |r| == |values|
    ensures forall k :: 0 <= k < |values| ==> r[k] == values[k].0
  {
    seq(|values|, k requires 0 <= k < |values| => values[k].0)
  }

  /**
   * A struct with fields yields an object with exactly one key per field name,
   * each holding that field's value (field names of a struct are distinct); a
   * struct without fields yields null parameters.
   */
  lemma {:induction false} PayloadHasOneKeyPerField(actionName: string, values: seq<(string, Json)>)
    requires forall i, j :: 0 <= i < j < |values| ==> values[i].0 != values[j].0
    ensures values == [] ==> IntoActionPayload(actionName, values).params.Null?
    ensures values != [] ==>
      && IntoActionPayload(actionName, values).params.Object?
      && IntoActionPayload(actionName, values).params.fields.Keys == set k | 0 <= k < |values| :: values[k].0
    ensures forall k :: 0 <= k < |values| ==> GetRaw(IntoActionPayload(actionName, values), values[k].0) == Some(values[k].1)
    decreases |values|
  {
    if values != [] {
      var init := values[..|values| - 1];
      PayloadHasOneKeyPerField(actionName, init);
      var p := IntoActionPayload(actionName, values);
      var last := values[|values| - 1];
      forall k | 0 <= k < |values|
        ensures GetRaw(p, values[k].0) == Some(values[k].1)
      {
        if k < |values| - 1 {
          assert init[k] == values[k];
        }
      }
      if init == [] {
        assert (set k | 0 <= k < |values| :: values[k].0) == {last.0};
      } else {
        assert (set k | 0 <= k < |values| :: values[k].0) == (set k | 0 <= k < |init| :: init[k].0) + {last.0} by {
          forall k | 0 <= k < |values|
            ensures values[k].0 in (set k | 0 <= k < |init| :: init[k].0) + {last.0}
          {
            if k < |init| {
              assert init[k] == values[k];
            }
          }
          forall k | 0 <= k < |init|
            ensures init[k].0 in (set k | 0 <= k < |values| :: values[k].0)
          {
            assert init[k] == values[k];
          }
        }
      }
    }
  }

  /**
   * The generated `register`: the typed handler is registered under the snake-case
   * action name derived from the struct name.
   */
  method Register(registry: AiActionRegistry, structName: string, id: nat, decodes: Json -> bool)
    modifies registry
    ensures registry.handlers == old(registry.handlers)[SnakeCase(structName) := TypedHandler(id, decodes)]
  {
    var actionName := ToSnakeCase(structName);
    registry.RegisterTyped(actionName, id, decodes);
  }
}
