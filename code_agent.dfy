/**
 * `apply_git_merge_diff`: SEARCH/REPLACE blocks of a merge diff applied in
 * turn to a file's content, each to the first occurrence of its search text.
 */
module MergeDiff {
  import opened Wrappers
  import opened Text

  const Open := "<<<<<<< SEARCH\n"
  const Sep := "\n=======\n"
  const Close := "\n>>>>>>> REPLACE"
  const OpenMarker := "<<<<<<< SEARCH"
  const BadFormat := "Found conflict markers but failed to parse. Check format."

  /** A block: the text to search for and the text to put in its place. */
  datatype Block = Block(search: string, replace: string)

  /**
   * The blocks `finditer` yields from position `p` on. The pattern's two
   * lazy groups end at the first separator after the opening marker and at
   * the first closing marker after that; where they cannot, the scan moves
   * one character on.
   */
  function Blocks(md: string, p: nat): (r: seq<Block>)
    requires p <= |md|
    decreases |md| - p
  {
    var q := FindFrom(md, Open, p);
    if q == -1 then []
    else
      match BlockAt(md, q)
      case None => if q < |md| then Blocks(md, q + 1) else []
      case Some(found) => [found.0] + Blocks(md, found.1)
  }

  /**
   * The block whose opening marker starts at `q`, with the position just
   * past its closing marker; None when no separator and closing marker follow.
   */
  function BlockAt(md: string, q: nat): (r: Option<(Block, nat)>)
    requires q + |Open| <= |md|
    ensures r.Some? ==> q < r.value.1 <= |md|
  {
    var a := q + |Open|;
    var j := FindFrom(md, Sep, a);
    if j == -1 then None
    else
      var b := j + |Sep|;
      var k := FindFrom(md, Close, b);
      if k == -1 then None
      else Some((Block(md[a..j], md[b..k]), k + |Close|))
  }

  /** Python's `s.replace(target, repl, 1)`: the first occurrence only (the front of `s` for an empty target). */
  function ReplaceFirst(s: string, target: string, repl: string): (r: string)
    requires Contains(s, target)
    ensures exists i :: && OccursAt(s, target, i) && (forall j :: 0 <= j < i ==> !OccursAt(s, target, j))
                        && r == s[..i] + repl + s[i + |target|..]
  {
    var i := Find(s, target);
    FindFromFirst(s, target, 0);
    s[..i] + repl + s[i + |target|..]
  }

  function NotFound(search: string): Error
  {
    ValueError("Could not find search block in the file content.\nSearch Block:\n" + search)
  }

  /** The blocks applied in order; the first whose search text is missing raises ValueError. */
  function ApplyBlocks(content: string, blocks: seq<Block>): Result<string>
    decreases |blocks|
  {
    if blocks == [] then Ok(content)
    else if !Contains(content, blocks[0].search) then Err(NotFound(blocks[0].search))
    else ApplyBlocks(ReplaceFirst(content, blocks[0].search, blocks[0].replace), blocks[1..])
  }

  /**
   * The result of `apply_git_merge_diff`: the blocks applied, or ValueError
   * when the diff has an opening marker but no block could be read.
   */
  function MergeResult(content: string, md: string): Result<string>
  {
    var blocks := Blocks(md, 0);
    if blocks == [] && Contains(md, OpenMarker) then Err(ValueError(BadFormat))
    else ApplyBlocks(content, blocks)
  }

  method ApplyGitMergeDiff(originalContent: string, mergeDiff: string) returns (r: Result<string>)
    ensures r == MergeResult(originalContent, mergeDiff)
  {
    var matches := Blocks(mergeDiff, 0);
    var newContent := originalContent;
    var foundAny := false;
    for i := 0 to |matches|
      invariant foundAny <==> i > 0
      invariant ApplyBlocks(originalContent, matches) == ApplyBlocks(newContent, matches[i..])
    {
      foundAny := true;
      var block := matches[i];
      assert matches[i..][1..] == matches[i + 1..];
      if Contains(newContent, block.search) {
        newContent := ReplaceFirst(newContent, block.search, block.replace);
      } else {
        return Err(NotFound(block.search));
      }
    }
    if !foundAny {
      if Contains(mergeDiff, OpenMarker) {
        return Err(ValueError(BadFormat));
      }
    }
    assert matches[|matches|..] == [];
    return Ok(newContent);
  }

  // ----- properties -----

  /** A diff with no opening marker at all leaves the content as it is. */
  lemma NoMarkersUnchanged(content: string, md: string)
    requires !Contains(md, OpenMarker)
    ensures MergeResult(content, md) == Ok(content)
  {
    if Find(md, Open) != -1 {
      var q := Find(md, Open);
      assert OccursAt(md, Open, q);
      assert Open[..|OpenMarker|] == OpenMarker;
      assert md[q..q + |OpenMarker|] == md[q..q + |Open|][..|OpenMarker|];
      assert OccursAt(md, OpenMarker, q);
      ContainsIff(md, OpenMarker);
    }
  }

  /** Applying blocks one after the other: the first block's result is where the rest start. */
  lemma {:induction false} ApplyBlocksAppend(content: string, xs: seq<Block>, ys: seq<Block>)
    ensures ApplyBlocks(content, xs + ys)
              == match ApplyBlocks(content, xs) case Err(e) => Err(e) case Ok(c) => ApplyBlocks(c, ys)
    decreases |xs|
  {
    if xs != [] {
      assert (xs + ys)[0] == xs[0] && (xs + ys)[1..] == xs[1..] + ys;
      if Contains(content, xs[0].search) {
        ApplyBlocksAppend(ReplaceFirst(content, xs[0].search, xs[0].replace), xs[1..], ys);
      }
    } else {
      assert xs + ys == ys;
    }
  }

  /**
   * A diff made of one block whose search text holds no '=' and whose
   * replacement holds no '>' reads back as exactly that block.
   */
  lemma SingleBlock(search: string, replace: string)
    requires Free(search, '=') && Free(replace, '>')
    ensures Blocks(Open + search + Sep + replace + Close, 0) == [Block(search, replace)]
  {
    var md := Open + search + Sep + replace + Close;
    var j := |Open| + |search|;
    var k := j + |Sep| + |replace|;
    OpenFirst(md, search + Sep + replace + Close);
    SepAfterSearch(search, replace);
    CloseAfterReplace(search, replace);
    BlocksOfOne(md, j, k);
  }

  lemma OpenFirst(md: string, rest: string)
    requires md == Open + rest
    ensures FindFrom(md, Open, 0) == 0
  {
    assert md[..|Open|] == Open;
    FindFromAt(md, Open, 0, 0);
  }

  /** The separator of a one-block diff is found right after the search text. */
  lemma SepAfterSearch(search: string, replace: string)
    requires Free(search, '=')
    ensures var md := Open + search + Sep + replace + Close;
            && FindFrom(md, Sep, |Open|) == |Open| + |search|
            && md[|Open|..|Open| + |search|] == search
  {
    assert Sep[0] == '\n' && Sep[1] == '=';
    assert Open + search + Sep + replace + Close == Open + search + Sep + (replace + Close);
    PieceThenMarker(Open, search, Sep, replace + Close);
  }

  /** The closing marker of a one-block diff is found right after the replacement. */
  lemma CloseAfterReplace(search: string, replace: string)
    requires Free(replace, '>')
    ensures var md := Open + search + Sep + replace + Close;
            var b := |Open| + |search| + |Sep|;
            && FindFrom(md, Close, b) == b + |replace|
            && md[b..b + |replace|] == replace
  {
    assert Close[0] == '\n' && Close[1] == '>';
    assert Open + search + Sep + replace + Close == (Open + search + Sep) + replace + Close + [];
    PieceThenMarker(Open + search + Sep, replace, Close, []);
  }

  /**
   * The first occurrence of a marker after `pre` is right after `piece`
   * when the piece lacks the marker's second character.
   */
  lemma PieceThenMarker(pre: string, piece: string, marker: string, post: string)
    requires |marker| >= 2 && marker[0] != marker[1] && Free(piece, marker[1])
    ensures FindFrom(pre + piece + marker + post, marker, |pre|) == |pre| + |piece|
    ensures (pre + piece + marker + post)[|pre|..|pre| + |piece|] == piece
  {
    var md := pre + piece + marker + post;
    var j := |pre| + |piece|;
    assert md[|pre|..j] == piece && md[j..j + |marker|] == marker;
    PieceThenOther(md, |pre|, piece, marker[1]);
    FirstAtByChar(md, marker, |pre|, j, 1);
  }

  /** After a piece free of `c` and followed by another character, no character of the piece but the first is `c`, nor the one after it. */
  lemma PieceThenOther(md: string, lo: nat, piece: string, c: char)
    requires lo + |piece| < |md| && md[lo..lo + |piece|] == piece && Free(piece, c) && md[lo + |piece|] != c
    ensures forall y :: lo < y <= lo + |piece| ==> md[y] != c
  {
    forall y | lo < y <= lo + |piece|
      ensures md[y] != c
    {
      if y < lo + |piece| {
        assert md[y] == piece[y - lo];
      }
    }
  }

  /** The first occurrence from `i` is at `k` when no earlier start has the pattern's character at offset `off`. */
  lemma FirstAtByChar(s: string, p: string, i: nat, k: nat, off: nat)
    requires off < |p| && i <= k && OccursAt(s, p, k)
    requires forall y :: i + off <= y < k + off ==> s[y] != p[off]
    ensures FindFrom(s, p, i) == k
  {
    forall x | i <= x < k
      ensures !OccursAt(s, p, x)
    {
      if x + |p| <= |s| {
        assert s[x..x + |p|][off] == s[x + off];
      }
    }
    FindFromAt(s, p, i, k);
  }

  /** The blocks of a diff whose first block ends the text. */
  lemma BlocksOfOne(md: string, j: nat, k: nat)
    requires |Open| <= j && k + |Close| == |md|
    requires FindFrom(md, Open, 0) == 0 && FindFrom(md, Sep, |Open|) == j
    requires j + |Sep| <= k && FindFrom(md, Close, j + |Sep|) == k
    ensures Blocks(md, 0) == [Block(md[|Open|..j], md[j + |Sep|..k])]
  {
    BlocksUnfold(md, 0, 0, j, k);
    NoBlocksAtEnd(md);
  }

  /** A block found from `p` on: its texts, then the blocks after its close. */
  lemma BlocksUnfold(md: string, p: nat, q: nat, j: nat, k: nat)
    requires p <= |md| && FindFrom(md, Open, p) == q
    requires q + |Open| <= |md| && FindFrom(md, Sep, q + |Open|) == j
    requires j + |Sep| <= |md| && FindFrom(md, Close, j + |Sep|) == k && k + |Close| <= |md|
    ensures Blocks(md, p) == [Block(md[q + |Open|..j], md[j + |Sep|..k])] + Blocks(md, k + |Close|)
  {
    BlockAtFound(md, q, j, k);
    BlocksStep(md, p, q, Block(md[q + |Open|..j], md[j + |Sep|..k]), k + |Close|);
  }

  lemma BlockAtFound(md: string, q: nat, j: nat, k: nat)
    requires q + |Open| <= |md| && FindFrom(md, Sep, q + |Open|) == j
    requires j + |Sep| <= |md| && FindFrom(md, Close, j + |Sep|) == k && k + |Close| <= |md|
    ensures BlockAt(md, q) == Some((Block(md[q + |Open|..j], md[j + |Sep|..k]), k + |Close|))
  {
  }

  lemma BlocksStep(md: string, p: nat, q: nat, b: Block, e: nat)
    requires p <= |md| && FindFrom(md, Open, p) == q && q + |Open| <= |md|
    requires BlockAt(md, q) == Some((b, e))
    ensures e <= |md| && Blocks(md, p) == [b] + Blocks(md, e)
  {
  }

  lemma NoBlocksAtEnd(md: string)
    ensures Blocks(md, |md|) == []
  {
    assert !OccursAt(md, Open, |md|);
  }

  /**
   * A one-block diff replaces the first occurrence of its search text: with
   * the content `pre + search + post` and no earlier occurrence, the result
   * is `pre + replace + post`.
   */
  lemma SingleBlockApplied(pre: string, search: string, post: string, replace: string)
    requires Free(search, '=') && Free(replace, '>')
    requires Find(pre + search + post, search) == |pre|
    ensures MergeResult(pre + search + post, Open + search + Sep + replace + Close) == Ok(pre + replace + post)
  {
    var content := pre + search + post;
    var md := Open + search + Sep + replace + Close;
    SingleBlock(search, replace);
    var blocks := [Block(search, replace)];
    assert MergeResult(content, md) == ApplyBlocks(content, blocks);
    assert content[..|pre|] == pre && content[|pre| + |search|..] == post;
    assert ApplyBlocks(content, blocks) == ApplyBlocks(ReplaceFirst(content, search, replace), []);
  }

  /** The scenario of the tool's unit test: the middle line of three replaced. */
  lemma ReplaceMiddleLine(content: string, line: string, rest: string, modified: string)
    requires line == "line2" && modified == "line2_modified"
    requires content == "line1\n" + line + rest && rest == "\nline3"
    ensures MergeResult(content, Open + line + Sep + modified + Close) == Ok("line1\n" + modified + rest)
  {
    SecondLineFound(content, line);
    SingleBlockApplied("line1\n", line, rest, modified);
  }

  lemma SecondLineFound(s: string, line: string)
    requires line == "line2" && s == "line1\n" + line + "\nline3"
    ensures Find(s, line) == 6
  {
    assert s[6..11] == line;
    forall x | 0 <= x < 6
      ensures !OccursAt(s, line, x)
    {
      assert s[x..x + 5][4] == s[x + 4];
    }
    FindFromAt(s, line, 0, 6);
  }
}

/** `ToolRegistry`: the agent's tools by name, in registration order. */
module Tools {
  import opened Text
  import TextUtils

  /** What a tool does when called: a value, or an exception with its message. */
  datatype Outcome = Returned(value: string) | Raised(message: string)

  type Args = map<string, string>

  datatype Tool = Tool(description: string, func: Args -> Outcome)

  /** One line per tool, in the dictionary's order. */
  function DefinitionLines(order: seq<string>, tools: map<string, Tool>): (r: seq<string>)
    requires forall k :: 0 <= k < |order| ==> order[k] in tools
    ensures |r| == |order|
    ensures forall k :: 0 <= k < |order| ==> r[k] == "- `" + order[k] + "`: " + tools[order[k]].description
    decreases |order|
  {
    if order == [] then []
    else DefinitionLines(order[..|order| - 1], tools)
           + ["- `" + order[|order| - 1] + "`: " + tools[order[|order| - 1]].description]
  }

  /** What `execute` answers for `action`. */
  function Executed(tools: map<string, Tool>, action: string, args: Args): string
  {
    if action in tools then
      match tools[action].func(args)
      case Returned(v) => v
      case Raised(m) => "Error executing " + action + ": " + m
    else "Unknown action: " + action
  }

  class ToolRegistry {
    var tools: map<string, Tool>
    /** The dictionary's iteration order: names as first registered. */
    var order: seq<string>

    ghost predicate Valid()
      reads this
    {
      && TextUtils.NoDuplicates(order)
      && (forall k :: k in tools <==> k in order)
    }

    constructor()
      ensures Valid() && tools == map[] && order == []
    {
      tools := map[];
      order := [];
    }

    /** A name registered again keeps its place and takes the new description and function. */
    method RegisterTool(name: string, description: string, func: Args -> Outcome)
      requires Valid()
      modifies this
      ensures Valid()
      ensures tools == old(tools)[name := Tool(description, func)]
      ensures order == if name in old(tools) then old(order) else old(order) + [name]
    {
      if name !in tools {
        order := order + [name];
      }
      tools := tools[name := Tool(description, func)];
    }

    method GetToolDefinitions() returns (r: string)
      requires Valid()
      ensures r == Join("\n", DefinitionLines(order, tools))
    {
      var definitions: seq<string> := [];
      for i := 0 to |order|
        invariant definitions == DefinitionLines(order[..i], tools)
      {
        assert order[..i + 1][..i] == order[..i];
        definitions := definitions + ["- `" + order[i] + "`: " + tools[order[i]].description];
      }
      assert order[..|order|] == order;
      r := Join("\n", definitions);
    }

    method Execute(action: string, args: Args) returns (r: string)
      ensures r == Executed(tools, action, args)
    {
      if action in tools {
        var outcome := tools[action].func(args);
        match outcome
        case Returned(v) => return v;
        case Raised(m) => return "Error executing " + action + ": " + m;
      }
      return "Unknown action: " + action;
    }
  }

  // ----- properties -----

  /** Registering again under a known name changes that tool's line only, in place. */
  lemma ReRegisterKeepsPlace(order: seq<string>, tools: map<string, Tool>, name: string, t: Tool, k: nat)
    requires forall i :: 0 <= i < |order| ==> order[i] in tools
    requires k < |order| && order[k] == name && TextUtils.NoDuplicates(order)
    ensures var before := DefinitionLines(order, tools);
            var after := DefinitionLines(order, tools[name := t]);
            && |after| == |before|
            && after[k] == "- `" + name + "`: " + t.description
            && forall i :: 0 <= i < |order| && i != k ==> after[i] == before[i]
  {
    var after := DefinitionLines(order, tools[name := t]);
    forall i | 0 <= i < |order| && i != k
      ensures after[i] == DefinitionLines(order, tools)[i]
    {
      assert order[i] != name;
    }
  }

  /** An unknown action calls nothing and names itself. */
  lemma UnknownAction(tools: map<string, Tool>, action: string, args: Args)
    requires action !in tools
    ensures Executed(tools, action, args) == "Unknown action: " + action
  {
  }
}
