/**
 * Page blocks and the block-list editor (client/src/components/Blocks.jsx).
 *
 * A block is `{type, content}`; the field is called `kind` here because `type`
 * is a Dafny keyword. The kind is a string because the editor, the server and
 * the renderer all meet kinds outside the closed set and treat them specially.
 */
module Blocks {
  import opened Seqs

  datatype Block = Block(kind: string, content: string)

  /** The `{blocks: [...]}` object that travels between client and server and is stored as JSON. */
  datatype BlocksDoc = BlocksDoc(blocks: seq<Block>)

  const HeaderKind: string := "header"
  const ParagraphKind: string := "paragraph"
  const ImageKind: string := "image"

  predicate IsKnownKind(kind: string)
  {
    kind == HeaderKind || kind == ParagraphKind || kind == ImageKind
  }

  /** `blocks.some(block => block.type === 'header')` */
  predicate HasHeader(blocks: seq<Block>)
  {
    exists i :: 0 <= i < |blocks| && blocks[i].kind == HeaderKind
  }

  /** `blocks.some(block => block.type !== 'header')` */
  predicate HasOther(blocks: seq<Block>)
  {
    exists i :: 0 <= i < |blocks| && blocks[i].kind != HeaderKind
  }

  /** A header and a non-header are two different blocks, so such a list has at least two. */
  lemma HeaderAndOtherNeedTwoBlocks(blocks: seq<Block>)
    requires HasHeader(blocks) && HasOther(blocks)
    ensures |blocks| >= 2
  {
    var i :| 0 <= i < |blocks| && blocks[i].kind == HeaderKind;
    var j :| 0 <= j < |blocks| && blocks[j].kind != HeaderKind;
    assert i != j;
  }

  // ---------------------------------------------------------------------------
  // Viewing

  const ImagesPath: string := "../../public/"

  /** What one block renders to: `<h5>`, `<p>`, `<img>` or the unknown-type placeholder. */
  datatype Element = H5(text: string) | P(text: string) | Img(src: string) | UnknownBlockType

  function RenderBlock(b: Block): (e: Element)
    ensures e.UnknownBlockType? <==> !IsKnownKind(b.kind)
    ensures b.kind == HeaderKind ==> e == H5(b.content)
    ensures b.kind == ParagraphKind ==> e == P(b.content)
    ensures b.kind == ImageKind ==> e == Img(ImagesPath + b.content)
  {
    if b.kind == HeaderKind then H5(b.content)
    else if b.kind == ParagraphKind then P(b.content)
    else if b.kind == ImageKind then Img(ImagesPath + b.content)
    else UnknownBlockType
  }

  /** `blocks.map(...)`: one element per block, in block order. */
  function Render(blocks: seq<Block>): (r: seq<Element>)
    ensures |r| == |blocks|
    ensures forall i :: 0 <= i < |blocks| ==> r[i] == RenderBlock(blocks[i])
  {
    seq(|blocks|, i requires 0 <= i < |blocks| => RenderBlock(blocks[i]))
  }

  /**
   * A list whose kinds are all known never shows the placeholder. The
   * placeholder is a paragraph whose text is "Unknown block type"; the model
   * keeps it a separate element, so the lemma says no block rendered as the
   * fallback, not that no paragraph carries that text (a paragraph block whose
   * content is "Unknown block type" renders the same markup).
   */
  lemma KnownKindsRenderWithoutPlaceholder(blocks: seq<Block>)
    requires forall i :: 0 <= i < |blocks| ==> IsKnownKind(blocks[i].kind)
    ensures UnknownBlockType !in Render(blocks)
  {
    var r := Render(blocks);
    forall i | 0 <= i < |r| ensures r[i] != UnknownBlockType {
      assert r[i] == RenderBlock(blocks[i]);
    }
  }

  // ---------------------------------------------------------------------------
  // Editing: the specification of each button and input

  /** What the up button leaves: the block and its predecessor swapped; a no-op on the first block. */
  function MovedUp(blocks: seq<Block>, index: nat): (r: seq<Block>)
    requires index < |blocks|
    ensures |r| == |blocks|
    ensures index == 0 ==> r == blocks
    ensures index > 0 ==> r[index - 1] == blocks[index] && r[index] == blocks[index - 1]
    ensures forall k :: 0 <= k < |blocks| && k != index - 1 && k != index ==> r[k] == blocks[k]
  {
    if index == 0 then blocks
    else blocks[index - 1 := blocks[index]][index := blocks[index - 1]]
  }

  /** What the down button leaves: the block and its successor swapped; a no-op on the last block. */
  function MovedDown(blocks: seq<Block>, index: nat): (r: seq<Block>)
    requires index < |blocks|
    ensures |r| == |blocks|
    ensures index == |blocks| - 1 ==> r == blocks
    ensures index < |blocks| - 1 ==> r[index + 1] == blocks[index] && r[index] == blocks[index + 1]
    ensures forall k :: 0 <= k < |blocks| && k != index && k != index + 1 ==> r[k] == blocks[k]
  {
    if index == |blocks| - 1 then blocks
    else blocks[index + 1 := blocks[index]][index := blocks[index + 1]]
  }

  /** Moving up never loses, duplicates or alters a block. */
  lemma MoveUpPermutes(blocks: seq<Block>, index: nat)
    requires index < |blocks|
    ensures multiset(MovedUp(blocks, index)) == multiset(blocks)
  {
    if index > 0 {
      SwapPermutes(blocks, index - 1, index);
    }
  }

  /** Moving down never loses, duplicates or alters a block. */
  lemma MoveDownPermutes(blocks: seq<Block>, index: nat)
    requires index < |blocks|
    ensures multiset(MovedDown(blocks, index)) == multiset(blocks)
  {
    if index < |blocks| - 1 {
      var i, j := index, index + 1;
      assert MovedDown(blocks, index) == blocks[i := blocks[j]][j := blocks[i]];
      SwapPermutes(blocks, i, j);
    }
  }

  lemma SwapPermutes(s: seq<Block>, i: nat, j: nat)
    requires i < j < |s|
    ensures multiset(s[i := s[j]][j := s[i]]) == multiset(s)
  {
    var t := s[i := s[j]][j := s[i]];
    assert s == s[..i] + [s[i]] + s[i + 1..j] + [s[j]] + s[j + 1..];
    assert t == s[..i] + [s[j]] + s[i + 1..j] + [s[i]] + s[j + 1..];
  }

  /** Down on the block that just moved up puts it back. */
  lemma UpThenDownRestores(blocks: seq<Block>, index: nat)
    requires 0 < index < |blocks|
    ensures |MovedUp(blocks, index)| == |blocks|
    ensures MovedDown(MovedUp(blocks, index), index - 1) == blocks
  {
  }

  /** Up on the block that just moved down puts it back. */
  lemma DownThenUpRestores(blocks: seq<Block>, index: nat)
    requires index < |blocks| - 1
    ensures |MovedDown(blocks, index)| == |blocks|
    ensures MovedUp(MovedDown(blocks, index), index + 1) == blocks
  {
  }

  /** Rendering follows the reordering: the page shows the moved blocks moved. */
  lemma RenderFollowsMoveUp(blocks: seq<Block>, index: nat)
    requires 0 < index < |blocks|
    ensures Render(MovedUp(blocks, index))
            == Render(blocks)[index - 1 := RenderBlock(blocks[index])][index := RenderBlock(blocks[index - 1])]
  {
    var moved := MovedUp(blocks, index);
    var lhs := Render(moved);
    var rhs := Render(blocks)[index - 1 := RenderBlock(blocks[index])][index := RenderBlock(blocks[index - 1])];
    forall k | 0 <= k < |lhs| ensures lhs[k] == rhs[k] {
      if k != index - 1 && k != index {
        assert moved[k] == blocks[k];
      }
    }
  }

  /** `blocks.filter((block, i) => i !== index)`, walking positions from `pos` on. */
  function DropPosition(blocks: seq<Block>, index: int, pos: int): (r: seq<Block>)
    ensures pos <= index < pos + |blocks| ==> r == blocks[..index - pos] + blocks[index - pos + 1..]
    ensures !(pos <= index < pos + |blocks|) ==> r == blocks
    decreases |blocks|
  {
    if |blocks| == 0 then []
    else (if pos == index then [] else [blocks[0]]) + DropPosition(blocks[1..], index, pos + 1)
  }

  /** The delete button: keeps every block except the one at `index`, in order. */
  function Deleted(blocks: seq<Block>, index: int): (r: seq<Block>)
  {
    DropPosition(blocks, index, 0)
  }

  lemma DeleteRemovesExactlyOne(blocks: seq<Block>, index: nat)
    requires index < |blocks|
    ensures var r := Deleted(blocks, index);
            && |r| == |blocks| - 1
            && (forall k :: 0 <= k < index ==> r[k] == blocks[k])
            && (forall k :: index <= k < |r| ==> r[k] == blocks[k + 1])
            && multiset(r) + multiset{blocks[index]} == multiset(blocks)
  {
    assert blocks == blocks[..index] + [blocks[index]] + blocks[index + 1..];
  }

  // ---------------------------------------------------------------------------
  // Editing: the handlers, as the component runs them on a fresh copy of the list

  /** `UpButton.moveBlockUp`: copy the list, swap through a temporary, hand the copy back. */
  method MoveBlockUp(blocks: seq<Block>, index: nat) returns (newBlocks: seq<Block>)
    requires index < |blocks|
    ensures newBlocks == MovedUp(blocks, index)
  {
    newBlocks := blocks;
    if index != 0 {
      var a := new Block[|blocks|](i requires 0 <= i < |blocks| => blocks[i]);
      var temp := a[index - 1];
      a[index - 1] := a[index];
      a[index] := temp;
      newBlocks := a[..];
    }
  }

  /** `DownButton.moveBlockDown`: copy the list, swap through a temporary, hand the copy back. */
  method MoveBlockDown(blocks: seq<Block>, index: nat) returns (newBlocks: seq<Block>)
    requires index < |blocks|
    ensures newBlocks == MovedDown(blocks, index)
  {
    newBlocks := blocks;
    if index != |blocks| - 1 {
      var a := new Block[|blocks|](i requires 0 <= i < |blocks| => blocks[i]);
      var temp := a[index + 1];
      a[index + 1] := a[index];
      a[index] := temp;
      newBlocks := a[..];
    }
  }

  /** `handleTypeChange`: the chosen kind is set and the content is reset to ''. */
  method ChangeType(blocks: seq<Block>, index: nat, newKind: string) returns (newBlocks: seq<Block>)
    requires index < |blocks|
    ensures |newBlocks| == |blocks|
    ensures newBlocks[index] == Block(newKind, "")
    ensures forall k :: 0 <= k < |blocks| && k != index ==> newBlocks[k] == blocks[k]
  {
    var a := new Block[|blocks|](i requires 0 <= i < |blocks| => blocks[i]);
    a[index] := a[index].(kind := newKind);
    a[index] := a[index].(content := "");
    newBlocks := a[..];
  }

  /** `handleContentChange`: only the content of the edited block changes. */
  method ChangeContent(blocks: seq<Block>, index: nat, newContent: string) returns (newBlocks: seq<Block>)
    requires index < |blocks|
    ensures |newBlocks| == |blocks|
    ensures newBlocks[index] == Block(blocks[index].kind, newContent)
    ensures forall k :: 0 <= k < |blocks| && k != index ==> newBlocks[k] == blocks[k]
  {
    var a := new Block[|blocks|](i requires 0 <= i < |blocks| => blocks[i]);
    a[index] := a[index].(content := newContent);
    newBlocks := a[..];
  }

  /** The four pictures an image block can show. */
  datatype ImageChoice = Img1 | Img2 | Img3 | Img4

  function ImageFile(choice: ImageChoice): (file: string)
    ensures file in ImageFiles
  {
    match choice
    case Img1 => "img1.png"
    case Img2 => "img2.png"
    case Img3 => "img3.png"
    case Img4 => "img4.png"
  }

  const ImageFiles: set<string> := {"img1.png", "img2.png", "img3.png", "img4.png"}

  /** `ImageOption.handleImageChange`: selecting a picture stores its file name as the content. */
  method ChooseImage(blocks: seq<Block>, index: nat, choice: ImageChoice) returns (newBlocks: seq<Block>)
    requires index < |blocks|
    ensures |newBlocks| == |blocks|
    ensures newBlocks[index].kind == blocks[index].kind && newBlocks[index].content in ImageFiles
    ensures newBlocks[index].content == ImageFile(choice)
    ensures forall k :: 0 <= k < |blocks| && k != index ==> newBlocks[k] == blocks[k]
  {
    newBlocks := ChangeContent(blocks, index, ImageFile(choice));
  }
}
