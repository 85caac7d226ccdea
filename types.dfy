/**
 * Values shared by the code-block extension's modules: the editor framework's
 * answers (block lookups, node attributes, document fragments, rectangles)
 * are plain data here, handed to the operations as inputs.
 */
module CodeBlockTypes {

  /** The type name of the code-block content node. */
  const CodeBlockType: string := "codeBlock"

  /** JavaScript's `undefined`/`null` versus a present value. */
  datatype Option<+T> = None | Some(value: T)

  /** The outcome of a handler that may throw instead of returning normally. */
  datatype Outcome = Done | Threw(message: string)

  /**
   * A node attribute value. `Undefined` is what reading a key that the
   * attribute object does not hold yields.
   */
  datatype AttrValue = Str(s: string) | Flag(b: bool) | Undefined

  /** A node's attribute object (`node.attrs`). */
  type Attrs = map<string, AttrValue>

  /** Reads `attrs[key]` with JavaScript's semantics for a missing key. */
  function Lookup(attrs: Attrs, key: string): AttrValue
  {
    if key in attrs then attrs[key] else Undefined
  }

  /**
   * What `getBlockInfoFromPos` reports about the block around a position:
   * the block's id, its start and end positions, the size of the block
   * node's content, and the type name and attributes of its content node.
   */
  datatype BlockInfo = BlockInfo(
    id: string,
    startPos: int,
    endPos: int,
    nodeContentSize: nat,
    contentType: string,
    contentAttrs: Attrs)

  /** `getBlockInfoFromPos(doc, pos)`, as an oracle over positions. */
  type BlockLookup = int -> Option<BlockInfo>

  /** A DOM rectangle (`getBoundingClientRect()`); opaque to the model. */
  datatype Rect = Rect(x: int, y: int, width: int, height: int)

  /**
   * A document node: its type name, its schema group and its children in
   * order (`node.content`).
   */
  datatype Node = Node(typeName: string, group: string, children: seq<Node>)
}
