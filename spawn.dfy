/**
 * Spawning an exported deck in Tabletop Simulator (`karten/src/tts.rs`):
 * every front image is paired with a back image, and for each pair a Lua
 * `spawnObject` script is sent to the running game. The script is modelled
 * by the values it fills into its template.
 */
module Spawn {
  import opened Wrappers
  import opened Text
  import opened Carp
  import Geometry
  import Sheets

  /** Where the object appears on the table. */
  datatype Position = Position(x: real, y: real, z: real)

  /** The two script templates, with the values filled into them. */
  datatype Script =
    | DeckCustom(position: Position, face: string, back: string, width: nat, height: nat,
                 number: nat, sideways: bool, backIsHidden: bool)
    | CardCustom(position: Position, face: string, back: string, sideways: bool)

  /** `replace('\\', "//")`: every backslash becomes two forward slashes. */
  function ReplaceBackslashes(s: string): (r: string)
    ensures '\\' !in r
    ensures |r| == |s| + Count(s, '\\')
  {
    if s == [] then []
    else (if s[0] == '\\' then "//" else [s[0]]) + ReplaceBackslashes(s[1..])
  }

  /** Replacing backslashes works piece by piece. */
  lemma {:induction false} ReplaceBackslashesAppend(s: string, t: string)
    ensures ReplaceBackslashes(s + t) == ReplaceBackslashes(s) + ReplaceBackslashes(t)
  {
    if s != [] {
      var head := if s[0] == '\\' then "//" else [s[0]];
      assert (s + t)[0] == s[0] && (s + t)[1..] == s[1..] + t;
      assert ReplaceBackslashes(s + t) == head + ReplaceBackslashes(s[1..] + t);
      ReplaceBackslashesAppend(s[1..], t);
      assert ReplaceBackslashes(s) == head + ReplaceBackslashes(s[1..]);
      assert head + (ReplaceBackslashes(s[1..]) + ReplaceBackslashes(t))
        == (head + ReplaceBackslashes(s[1..])) + ReplaceBackslashes(t);
    } else {
      assert s + t == t;
    }
  }

  /** A path without backslashes is left as it is. */
  lemma {:induction false} ReplaceBackslashesKeeps(s: string)
    requires '\\' !in s
    ensures ReplaceBackslashes(s) == s
  {
    if s != [] {
      ReplaceBackslashesKeeps(s[1..]);
    }
  }

  /** The URL the game loads an image from: backslashes replaced, then `file://` unless it is an `http` address. */
  function Url(path: string): (r: string)
    ensures '\\' !in r
    ensures StartsWith(r, "http") || StartsWith(r, "file://")
    ensures var f := ReplaceBackslashes(path);
      (r == f <==> StartsWith(f, "http")) && |r| >= |f| && r[|r| - |f|..] == f
    ensures var f := ReplaceBackslashes(path); !StartsWith(f, "http") ==> r == "file://" + f
  {
    var f := ReplaceBackslashes(path);
    if StartsWith(f, "http") then f else "file://" + f
  }

  /** A Windows path becomes a `file://` URL with forward slashes. */
  lemma WindowsPathUrl()
    ensures Url("a\\b") == "file://a//b"
  {
    BackslashExample();
    assert "a//b"[..4][0] == 'a';
  }

  lemma BackslashExample()
    ensures ReplaceBackslashes("a\\b") == "a//b"
  {
    assert "a\\b"[1..] == "\\b" && "\\b"[1..] == "b" && "b"[1..] == [];
    assert ReplaceBackslashes("b") == "b";
    assert ReplaceBackslashes("\\b") == "//b";
  }

  /** `spawn_card_or_deck_tts`: a sheet becomes a custom deck of its grid, a single image a custom card. */
  function SpawnScript(position: Position, face: string, back: string, content: Sheets.Content,
                       sideways: bool, backIsHidden: bool): (r: Script)
    ensures r.position == position && r.face == Url(face) && r.back == Url(back) && r.sideways == sideways
    ensures r.DeckCustom? <==> content.Sheet?
    ensures r.DeckCustom? ==> (r.width == content.columns && r.height == content.rows &&
      r.number == content.total && r.backIsHidden == backIsHidden)
  {
    match content
    case Sheet(rows, columns, total) =>
      DeckCustom(position, Url(face), Url(back), columns, rows, total, sideways, backIsHidden)
    case Single => CardCustom(position, Url(face), Url(back), sideways)
  }

  /** The images of one side, in deck order. */
  function OfSide(deck: seq<Sheets.Artifact<string>>, side: Side): (r: seq<Sheets.Artifact<string>>)
    ensures |r| <= |deck|
    ensures forall i :: 0 <= i < |r| ==> r[i].side == side
  {
    if deck == [] then []
    else (if deck[0].side == side then [deck[0]] else []) + OfSide(deck[1..], side)
  }

  /** Every artifact of the side is kept: `filter` drops nothing it should keep. */
  lemma {:induction false} OfSideComplete(deck: seq<Sheets.Artifact<string>>, side: Side)
    ensures forall a :: a in deck && a.side == side ==> a in OfSide(deck, side)
  {
    if deck != [] {
      OfSideComplete(deck[1..], side);
      assert forall a :: a in deck ==> a == deck[0] || a in deck[1..];
    }
  }

  /** Filtering works piece by piece, so the kept artifacts stay in deck order. */
  lemma {:induction false} OfSideAppend(a: seq<Sheets.Artifact<string>>, b: seq<Sheets.Artifact<string>>, side: Side)
    ensures OfSide(a + b, side) == OfSide(a, side) + OfSide(b, side)
  {
    if a == [] {
      assert a + b == b;
    } else {
      var ab := a + b;
      assert ab != [] && ab[0] == a[0] && ab[1..] == a[1..] + b;
      OfSideAppend(a[1..], b, side);
    }
  }

  /** Whether a front is laid sideways: only a landscape aspect ratio is. */
  predicate Sideways(front: Sheets.Artifact<string>) {
    front.aspectRatio.Some? && Geometry.IsLandscape(front.aspectRatio.value)
  }

  /**
   * The scripts `spawn_deck` sends: the fronts zipped with the backs
   * repeated in a cycle, so front `i` gets back `i` modulo the number of
   * backs; without backs the cycle is empty and nothing is zipped.
   */
  function DeckScripts(deck: seq<Sheets.Artifact<string>>, position: Position): (r: seq<Script>)
    ensures |r| == if OfSide(deck, Back) == [] then 0 else |OfSide(deck, Front)|
  {
    var fronts := OfSide(deck, Front);
    var backs := OfSide(deck, Back);
    if backs == [] then []
    else
      seq(|fronts|, i requires 0 <= i < |fronts| =>
        SpawnScript(position, fronts[i].data, backs[i % |backs|].data, fronts[i].content, Sideways(fronts[i]), true))
  }

  /**
   * Script `i` shows front `i` over back `i mod #backs`, is a custom deck
   * exactly for a sheet, lies sideways exactly for a landscape front and
   * always hides the back.
   */
  lemma DeckScriptPairs(deck: seq<Sheets.Artifact<string>>, position: Position, i: nat)
    requires i < |DeckScripts(deck, position)|
    ensures var fronts, backs := OfSide(deck, Front), OfSide(deck, Back);
      var s := DeckScripts(deck, position)[i];
      |backs| > 0 && i < |fronts| &&
      s.face == Url(fronts[i].data) && s.back == Url(backs[i % |backs|].data) &&
      (s.DeckCustom? <==> fronts[i].content.Sheet?) &&
      (s.sideways <==> Sideways(fronts[i])) &&
      (s.DeckCustom? ==> s.backIsHidden)
  {
  }

  /** An empty deck spawns nothing. */
  lemma EmptyDeckSpawnsNothing(position: Position)
    ensures DeckScripts([], position) == []
  {
  }

  /** The index of the first script the game rejects, or the number of scripts when it accepts all. */
  function FirstError(scripts: seq<Script>, reply: Script -> Result<(), string>): (k: nat)
    ensures k <= |scripts|
    ensures forall j :: 0 <= j < k ==> reply(scripts[j]).Ok?
    ensures k < |scripts| ==> reply(scripts[k]).Err?
  {
    if scripts == [] then 0
    else if reply(scripts[0]).Err? then 0
    else 1 + FirstError(scripts[1..], reply)
  }

  /** The connection to the running game, reduced to the scripts it has been sent; `reply` is its answer to each. */
  class EditorApi {
    var sent: seq<Script>
    const reply: Script -> Result<(), string>

    constructor(reply: Script -> Result<(), string>)
      ensures sent == [] && this.reply == reply
    {
      sent := [];
      this.reply := reply;
    }

    /** `ExternalEditorApi::execute`: sends the script and returns the game's answer. */
    method Execute(script: Script) returns (r: Result<(), string>)
      modifies this
      ensures sent == old(sent) + [script]
      ensures r == reply(script)
    {
      sent := sent + [script];
      r := reply(script);
    }
  }

  /**
   * `spawn_deck`: sends the scripts in order and stops at the first one the
   * game rejects, returning its error; an empty deck sends nothing.
   */
  method SpawnDeck(api: EditorApi, deck: seq<Sheets.Artifact<string>>, position: Position)
    returns (r: Result<(), string>)
    modifies api
    ensures var scripts := DeckScripts(deck, position);
      var k := FirstError(scripts, api.reply);
      (r.Ok? <==> k == |scripts|) &&
      (r.Ok? ==> api.sent == old(api.sent) + scripts) &&
      (r.Err? ==> api.sent == old(api.sent) + scripts[..k + 1] && r.error == api.reply(scripts[k]).error)
  {
    if deck == [] {
      return Ok(());
    }
    r := SendAll(api, DeckScripts(deck, position));
  }

  /** The loop of `spawn_deck`: executes each script until the first error. */
  method SendAll(api: EditorApi, scripts: seq<Script>) returns (r: Result<(), string>)
    modifies api
    ensures var k := FirstError(scripts, api.reply);
      (r.Ok? <==> k == |scripts|) &&
      (r.Ok? ==> api.sent == old(api.sent) + scripts) &&
      (r.Err? ==> api.sent == old(api.sent) + scripts[..k + 1] && r.error == api.reply(scripts[k]).error)
  {
    ghost var k := FirstError(scripts, api.reply);
    for i := 0 to |scripts|
      invariant i <= k
      invariant api.sent == old(api.sent) + scripts[..i]
    {
      var answer := api.Execute(scripts[i]);
      assert scripts[..i + 1] == scripts[..i] + [scripts[i]];
      if answer.Err? {
        return Err(answer.error);
      }
    }
    assert scripts[..|scripts|] == scripts;
    return Ok(());
  }
}
