/**
 * The whiteboard command protocol (src/shared/canvasProtocol.js): a command
 * envelope is validated, then its operations add, connect, highlight, delete
 * or clear items in four collections keyed by item id. Each collection is a
 * JavaScript `Map`, which keeps insertion order and updates an existing key
 * in place; here it is a sequence of items with unique ids.
 */
module CanvasProtocol {
  import opened Wrappers
  import opened JsonModel

  // ---------------------------------------------------------------------------
  // Insertion-ordered maps keyed by item id

  /** The ids present in a map. */
  ghost function Ids<T>(m: seq<T>, key: T -> string): set<string> {
    set y | y in m :: key(y)
  }

  predicate UniqueIds<T>(m: seq<T>, key: T -> string) {
    forall i, j :: 0 <= i < j < |m| ==> key(m[i]) != key(m[j])
  }

  /** `map.set(key(x), x)`: replaces the item with the same id where it stands, or appends. */
  function Upsert<T>(m: seq<T>, x: T, key: T -> string): (r: seq<T>)
    requires UniqueIds(m, key)
    ensures UniqueIds(r, key)
    ensures x in r
    ensures forall y :: y in r ==> y == x || (y in m && key(y) != key(x))
    ensures forall y :: y in m && key(y) != key(x) ==> y in r
    ensures Ids(r, key) == Ids(m, key) + {key(x)}
  {
    if m == [] then [x]
    else if key(m[0]) == key(x) then
      assert forall j :: 0 < j < |m| ==> key(m[j]) != key(x);
      [x] + m[1..]
    else
      var rest := Upsert(m[1..], x, key);
      assert forall y :: y in rest ==> key(y) != key(m[0]);
      [m[0]] + rest
  }

  /** `map.delete(k)`: every other item stays, in order. */
  function Remove<T>(m: seq<T>, k: string, key: T -> string): (r: seq<T>)
    ensures forall y :: y in r ==> y in m && key(y) != k
    ensures forall y :: y in m && key(y) != k ==> y in r
    ensures (forall y :: y in m ==> key(y) != k) ==> r == m
    ensures UniqueIds(m, key) ==> UniqueIds(r, key)
  {
    if m == [] then []
    else
      var rest := Remove(m[1..], k, key);
      if key(m[0]) == k then rest
      else
        assert UniqueIds(m, key) ==> forall y :: y in rest ==> key(y) != key(m[0]);
        [m[0]] + rest
  }

  /** `new Map(items.map((x) => [x.id, x]))`: a later item with a repeated id overwrites the earlier one in its place. */
  function FromItems<T>(items: seq<T>, key: T -> string): (r: seq<T>)
    ensures UniqueIds(r, key)
    ensures forall y :: y in r ==> y in items
    ensures Ids(r, key) == Ids(items, key)
  {
    if items == [] then []
    else
      var init := items[..|items| - 1];
      assert items == init + [items[|items| - 1]];
      assert Ids(items, key) == Ids(init, key) + {key(items[|items| - 1])};
      Upsert(FromItems(init, key), items[|items| - 1], key)
  }

  // ---------------------------------------------------------------------------
  // Items and their normalisers

  datatype Shape = Shape(id: string, shape: Json, x: real, y: real, w: real, h: real, text: string, style: Json)

  datatype TextItem = TextItem(id: string, x: real, y: real, text: string, style: Json)

  datatype Connection = Connection(id: string, fromId: string, toId: string, labelText: string)

  datatype Highlight = Highlight(id: string, level: Json, note: string)

  function ShapeId(s: Shape): string { s.id }
  function TextId(t: TextItem): string { t.id }
  function ConnectionId(c: Connection): string { c.id }
  function HighlightId(h: Highlight): string { h.id }

  /** `typeof v === 'object'` for a truthy value. */
  predicate IsObject(v: Option<Json>) {
    JsTruthy(v) && (v.value.JArr? || v.value.JObj?)
  }

  /** `style && typeof style === 'object' ? style : {}`. */
  function StyleOf(v: Option<Json>): (r: Json)
    ensures IsObject(v) ==> r == v.value
    ensures !IsObject(v) ==> r == JObj([])
  {
    if IsObject(v) then v.value else JObj([])
  }

  /** `typeof v === 'string' ? v : ''`. */
  function TextOr(v: Option<Json>): (r: string)
    ensures AsStr(v).Some? ==> r == AsStr(v).value
    ensures AsStr(v).None? ==> r == ""
  {
    AsStr(v).GetOr("")
  }

  /** `normalizeShape(op)`: an id, a shape kind and four finite numbers are required. */
  function NormalizeShape(op: Json): (r: Option<Shape>)
    ensures r.Some? <==> (IsObject(Some(op)) && JsTruthy(Get(op, "id")) && JsTruthy(Get(op, "shape"))
      && AsNum(Get(op, "x")).Some? && AsNum(Get(op, "y")).Some? && AsNum(Get(op, "w")).Some? && AsNum(Get(op, "h")).Some?)
    ensures r.Some? ==> (r.value.id == JsString(Get(op, "id").value) && r.value.shape == Get(op, "shape").value
      && r.value.x == Get(op, "x").value.n && r.value.y == Get(op, "y").value.n
      && r.value.w == Get(op, "w").value.n && r.value.h == Get(op, "h").value.n
      && r.value.text == TextOr(Get(op, "text")) && r.value.style == StyleOf(Get(op, "style")))
  {
    if !IsObject(Some(op)) then None
    else
      var id := Get(op, "id");
      var kind := Get(op, "shape");
      if !JsTruthy(id) || !JsTruthy(kind) then None
      else
        var x := AsNum(Get(op, "x"));
        var y := AsNum(Get(op, "y"));
        var w := AsNum(Get(op, "w"));
        var h := AsNum(Get(op, "h"));
        if x.None? || y.None? then None
        else if w.None? || h.None? then None
        else Some(Shape(JsString(id.value), kind.value, x.value, y.value, w.value, h.value, TextOr(Get(op, "text")), StyleOf(Get(op, "style"))))
  }

  /** `normalizeText(op)`: an id, finite coordinates and string content are required. */
  function NormalizeText(op: Json): (r: Option<TextItem>)
    ensures r.Some? <==> (IsObject(Some(op)) && JsTruthy(Get(op, "id"))
      && AsNum(Get(op, "x")).Some? && AsNum(Get(op, "y")).Some? && AsStr(Get(op, "text")).Some?)
    ensures r.Some? ==> (r.value.id == JsString(Get(op, "id").value) && r.value.text == Get(op, "text").value.s
      && r.value.style == StyleOf(Get(op, "style")))
  {
    if !IsObject(Some(op)) then None
    else
      var id := Get(op, "id");
      var x := AsNum(Get(op, "x"));
      var y := AsNum(Get(op, "y"));
      var content := AsStr(Get(op, "text"));
      if !JsTruthy(id) || x.None? || y.None? || content.None? then None
      else Some(TextItem(JsString(id.value), x.value, y.value, content.value, StyleOf(Get(op, "style"))))
  }

  /** `normalizeConnection(op)`: both endpoints are required; the id defaults to `${fromId}-${toId}`. */
  function NormalizeConnection(op: Json): (r: Option<Connection>)
    ensures r.Some? <==> IsObject(Some(op)) && JsTruthy(Get(op, "fromId")) && JsTruthy(Get(op, "toId"))
    ensures r.Some? ==> (r.value.fromId == JsString(Get(op, "fromId").value) && r.value.toId == JsString(Get(op, "toId").value)
      && r.value.labelText == TextOr(Get(op, "label")))
    ensures r.Some? && !JsTruthy(Get(op, "id")) ==> r.value.id == r.value.fromId + "-" + r.value.toId
    ensures r.Some? && JsTruthy(Get(op, "id")) ==> r.value.id == JsString(Get(op, "id").value)
  {
    if !IsObject(Some(op)) then None
    else
      var from := Get(op, "fromId");
      var to := Get(op, "toId");
      if !JsTruthy(from) || !JsTruthy(to) then None
      else
        var id := Get(op, "id");
        var fromText := JsString(from.value);
        var toText := JsString(to.value);
        Some(Connection(if JsTruthy(id) then JsString(id.value) else fromText + "-" + toText, fromText, toText, TextOr(Get(op, "label"))))
  }

  /** `normalizeHighlight(op)`: an id and a level are required. */
  function NormalizeHighlight(op: Json): (r: Option<Highlight>)
    ensures r.Some? <==> IsObject(Some(op)) && JsTruthy(Get(op, "id")) && JsTruthy(Get(op, "level"))
    ensures r.Some? ==> (r.value.id == JsString(Get(op, "id").value) && r.value.level == Get(op, "level").value
      && r.value.note == TextOr(Get(op, "note")))
  {
    if !IsObject(Some(op)) then None
    else
      var id := Get(op, "id");
      var level := Get(op, "level");
      if !JsTruthy(id) || !JsTruthy(level) then None
      else Some(Highlight(JsString(id.value), level.value, TextOr(Get(op, "note"))))
  }

  // ---------------------------------------------------------------------------
  // Validation

  const AllowedOps: set<string> := {"ADD_SHAPE", "ADD_TEXT", "CONNECT", "HIGHLIGHT", "DELETE", "CLEAR"}

  /** The per-op check inside `validateCanvasCommand`. */
  predicate ValidOp(op: Json) {
    IsObject(Some(op)) && AsStr(Get(op, "op")).Some? && AsStr(Get(op, "op")).value in AllowedOps
  }

  /** `validateCanvasCommand(command)`: `Ok` is `{ok: true}`, `Err` carries the error text. */
  function ValidateCanvasCommand(command: Option<Json>): (r: Result<seq<Json>>)
    ensures !IsObject(command) ==> r == Err("Invalid payload.")
    ensures IsObject(command) && Get(command.value, "type") != Some(JStr("CANVAS_CMD")) ==> r == Err("Invalid type.")
    ensures r.Ok? <==> (IsObject(command) && Get(command.value, "type") == Some(JStr("CANVAS_CMD"))
      && JsTruthy(Get(command.value, "cmdId")) && AsArr(Get(command.value, "ops")).Some?
      && forall k :: 0 <= k < |AsArr(Get(command.value, "ops")).value| ==> ValidOp(AsArr(Get(command.value, "ops")).value[k]))
    ensures r.Ok? ==> r.value == AsArr(Get(command.value, "ops")).value
  {
    if !IsObject(command) then Err("Invalid payload.")
    else if Get(command.value, "type") != Some(JStr("CANVAS_CMD")) then Err("Invalid type.")
    else if !JsTruthy(Get(command.value, "cmdId")) then Err("Missing cmdId.")
    else
      var ops := AsArr(Get(command.value, "ops"));
      if ops.None? then Err("Missing ops array.")
      else if exists k :: 0 <= k < |ops.value| && !ValidOp(ops.value[k]) then Err("Invalid op.")
      else Ok(ops.value)
  }

  /** An envelope with an empty op list is valid. */
  lemma EmptyOpsValid(cmdId: Json)
    requires JsTruthy(Some(cmdId))
    ensures ValidateCanvasCommand(Some(JObj([("type", JStr("CANVAS_CMD")), ("cmdId", cmdId), ("ops", JArr([]))]))) == Ok([])
  {
    EnvelopeFields(cmdId, []);
  }

  lemma EnvelopeFields(cmdId: Json, ops: seq<Json>)
    ensures var c := JObj([("type", JStr("CANVAS_CMD")), ("cmdId", cmdId), ("ops", JArr(ops))]);
      Get(c, "type") == Some(JStr("CANVAS_CMD")) && Get(c, "cmdId") == Some(cmdId) && Get(c, "ops") == Some(JArr(ops))
  {
    var c := JObj([("type", JStr("CANVAS_CMD")), ("cmdId", cmdId), ("ops", JArr(ops))]);
    assert Get(c, "type") == Some(JStr("CANVAS_CMD"));
    assert Get(c, "cmdId") == Some(cmdId);
    assert Keys(c.fields[2..]) == ["ops"];
    assert Keys(c.fields[1..]) == ["cmdId", "ops"];
    assert Keys(c.fields) == ["type", "cmdId", "ops"];
  }

  // ---------------------------------------------------------------------------
  // Applying a command

  datatype Board = Board(shapes: seq<Shape>, texts: seq<TextItem>, connections: seq<Connection>, highlights: seq<Highlight>)

  predicate BoardUnique(b: Board) {
    && UniqueIds(b.shapes, ShapeId)
    && UniqueIds(b.texts, TextId)
    && UniqueIds(b.connections, ConnectionId)
    && UniqueIds(b.highlights, HighlightId)
  }

  datatype AckStatus = Applied | Failed

  datatype Ack = Ack(cmdId: Option<Json>, status: AckStatus, error: Option<string>)

  /** DELETE: the id leaves all four maps. Stored ids are strings, so an id of another type matches none of them. */
  function DeleteId(b: Board, id: Option<Json>): (r: Board)
    requires BoardUnique(b)
    ensures BoardUnique(r)
  {
    if JsTruthy(id) && id.value.JStr? then
      Board(Remove(b.shapes, id.value.s, ShapeId), Remove(b.texts, id.value.s, TextId),
            Remove(b.connections, id.value.s, ConnectionId), Remove(b.highlights, id.value.s, HighlightId))
    else b
  }

  /** The effect of one validated op on the four maps. */
  function ApplyOp(b: Board, op: Json): (r: Board)
    requires BoardUnique(b)
    ensures BoardUnique(r)
  {
    match AsStr(Get(op, "op")).GetOr("")
    case "ADD_SHAPE" =>
      var n := NormalizeShape(op);
      if n.Some? then b.(shapes := Upsert(b.shapes, n.value, ShapeId)) else b
    case "ADD_TEXT" =>
      var n := NormalizeText(op);
      if n.Some? then b.(texts := Upsert(b.texts, n.value, TextId)) else b
    case "CONNECT" =>
      var n := NormalizeConnection(op);
      if n.Some? then b.(connections := Upsert(b.connections, n.value, ConnectionId)) else b
    case "HIGHLIGHT" =>
      var n := NormalizeHighlight(op);
      if n.Some? then b.(highlights := Upsert(b.highlights, n.value, HighlightId)) else b
    case "DELETE" => DeleteId(b, Get(op, "id"))
    case "CLEAR" => Board([], [], [], [])
    case _ => b
  }

  /** The ops applied left to right. */
  function ApplyOps(b: Board, ops: seq<Json>): (r: Board)
    requires BoardUnique(b)
    ensures BoardUnique(r)
  {
    if ops == [] then b else ApplyOp(ApplyOps(b, ops[..|ops| - 1]), ops[|ops| - 1])
  }

  /** The maps built from the incoming state. */
  function StartBoard(state: Board): (r: Board)
    ensures BoardUnique(r)
  {
    Board(FromItems(state.shapes, ShapeId), FromItems(state.texts, TextId),
          FromItems(state.connections, ConnectionId), FromItems(state.highlights, HighlightId))
  }

  /** `applyCanvasCommand(state, command)`, looping over the ops. */
  method ApplyCanvasCommand(state: Board, command: Option<Json>) returns (next: Board, ack: Ack)
    ensures ValidateCanvasCommand(command).Err? ==>
      next == state && ack == Ack(GetOpt(command, "cmdId"), Failed, Some(ValidateCanvasCommand(command).error))
    ensures ValidateCanvasCommand(command).Ok? ==>
      next == ApplyOps(StartBoard(state), ValidateCanvasCommand(command).value)
      && ack == Ack(GetOpt(command, "cmdId"), Applied, None)
    ensures ValidateCanvasCommand(command).Ok? ==> BoardUnique(next)
  {
    var validation := ValidateCanvasCommand(command);
    if validation.Err? {
      return state, Ack(GetOpt(command, "cmdId"), Failed, Some(validation.error));
    }
    next := ApplyAll(StartBoard(state), validation.value);
    ack := Ack(GetOpt(command, "cmdId"), Applied, None);
  }

  /** The `for (const op of command.ops)` loop over the four maps. */
  method ApplyAll(start: Board, ops: seq<Json>) returns (board: Board)
    requires BoardUnique(start)
    ensures board == ApplyOps(start, ops)
  {
    board := start;
    var i := 0;
    while i < |ops|
      invariant 0 <= i <= |ops|
      invariant BoardUnique(board)
      invariant board == ApplyOps(start, ops[..i])
    {
      assert ops[..i + 1][..i] == ops[..i];
      board := ApplyOp(board, ops[i]);
      i := i + 1;
    }
    assert ops[..i] == ops;
  }

  // ---------------------------------------------------------------------------
  // Properties of single ops

  /** An op named DELETE deletes its `id` field. */
  lemma ApplyDelete(b: Board, op: Json)
    requires BoardUnique(b)
    requires AsStr(Get(op, "op")).GetOr("") == "DELETE"
    ensures ApplyOp(b, op) == DeleteId(b, Get(op, "id"))
  {
  }

  /** DELETE removes the id from all four maps and keeps every other item. */
  lemma DeleteRemovesEverywhere(b: Board, op: Json, id: string)
    requires BoardUnique(b)
    requires Get(op, "op") == Some(JStr("DELETE")) && Get(op, "id") == Some(JStr(id)) && id != ""
    ensures var r := ApplyOp(b, op);
      && (forall s :: s in r.shapes <==> s in b.shapes && s.id != id)
      && (forall t :: t in r.texts <==> t in b.texts && t.id != id)
      && (forall c :: c in r.connections <==> c in b.connections && c.id != id)
      && (forall h :: h in r.highlights <==> h in b.highlights && h.id != id)
  {
    ApplyDelete(b, op);
  }

  /** CLEAR empties all four maps. */
  lemma ClearEmpties(b: Board, op: Json)
    requires BoardUnique(b)
    requires Get(op, "op") == Some(JStr("CLEAR"))
    ensures ApplyOp(b, op) == Board([], [], [], [])
  {
  }

  /** An ADD_SHAPE op that normalises puts its shape in place of any shape with the same id, touching nothing else. */
  lemma AddShapeUpserts(b: Board, op: Json)
    requires BoardUnique(b)
    requires Get(op, "op") == Some(JStr("ADD_SHAPE")) && NormalizeShape(op).Some?
    ensures var r := ApplyOp(b, op);
      var s := NormalizeShape(op).value;
      && s in r.shapes
      && (forall t :: t in r.shapes ==> t == s || (t in b.shapes && t.id != s.id))
      && (forall t :: t in b.shapes && t.id != s.id ==> t in r.shapes)
      && r.texts == b.texts && r.connections == b.connections && r.highlights == b.highlights
  {
  }

  /** An op whose normaliser rejects it is skipped silently. */
  lemma RejectedOpSkipped(b: Board, op: Json)
    requires BoardUnique(b)
    requires || (Get(op, "op") == Some(JStr("ADD_SHAPE")) && NormalizeShape(op).None?)
             || (Get(op, "op") == Some(JStr("ADD_TEXT")) && NormalizeText(op).None?)
             || (Get(op, "op") == Some(JStr("CONNECT")) && NormalizeConnection(op).None?)
             || (Get(op, "op") == Some(JStr("HIGHLIGHT")) && NormalizeHighlight(op).None?)
    ensures ApplyOp(b, op) == b
  {
  }

  /** Ops after a CLEAR see an empty board: a command ending in CLEAR leaves nothing. */
  lemma EndingInClearLeavesNothing(b: Board, ops: seq<Json>)
    requires BoardUnique(b)
    requires ops != [] && Get(ops[|ops| - 1], "op") == Some(JStr("CLEAR"))
    ensures ApplyOps(b, ops) == Board([], [], [], [])
  {
  }
}
