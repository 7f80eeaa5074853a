/**
 * `BrickAPI` (code/BrickAPI.py): an RDF graph of a building site, held as a set of triples that every
 * `add_*` operation inserts into. Names in the site namespace and in the Brick namespace are kept apart
 * as two kinds of term rather than concatenated into URIs.
 */
module BrickGraph {
  import opened IfcData

  /** An RDF term: a name in the site namespace (`SITE[..]`), in the Brick namespace (`BRICK[..]`), `rdf:type`, or a literal. */
  datatype Term = Site(local: string) | Brick(local: string) | RdfType | Literal(value: Value)

  datatype Triple = Triple(subj: Term, pred: Term, obj: Term)

  /** The triple `add_node` inserts. */
  function NodeTriple(node: string, nodeClass: string): Triple
  {
    Triple(Site(node), RdfType, Brick(nodeClass))
  }

  /** The triple `add_edge` inserts. */
  function EdgeTriple(source: string, target: string, edgeType: string): Triple
  {
    Triple(Site(source), Brick(edgeType), Site(target))
  }

  /** The triple `add_property` inserts. */
  function PropertyTriple(source: string, property: Value, propertyType: string): Triple
  {
    Triple(Site(source), Brick(propertyType), Literal(property))
  }

  /** The triple linking a node to a tag. */
  function HasTagTriple(node: string, tag: string): Triple
  {
    Triple(Site(node), Brick("hasTag"), Site(tag))
  }

  /** The class `add_tag` gives a new tag: `'brick:Tag'`, looked up in the Brick namespace as it stands. */
  const TagNodeClass := "brick:Tag"

  /** The pattern `get_tag`'s query `bldg:<tag> rdf:type brick:Tag` matches. */
  function TagQueryTriple(tag: string): Triple
  {
    Triple(Site(tag), RdfType, Brick("Tag"))
  }

  class BrickAPI {
    /** The graph. */
    var g: set<Triple>

    /** A new, empty graph; binding the `bldg` and `brick` prefixes does not change its triples. */
    constructor ()
      ensures g == {}
    {
      g := {};
    }

    /** The number of rows `get_tag` returns: one when the tag is declared with class `Brick("Tag")`, none otherwise. */
    method GetTag(tag: string) returns (rows: nat)
      ensures rows <= 1
      ensures rows == 1 <==> TagQueryTriple(tag) in g
    {
      rows := if TagQueryTriple(tag) in g then 1 else 0;
    }

    /** `add_node`: inserts exactly the type triple of the node. */
    method AddNode(node: string, nodeClass: string)
      modifies this
      ensures g == old(g) + {NodeTriple(node, nodeClass)}
    {
      g := g + {NodeTriple(node, nodeClass)};
    }

    /** `add_tag`: declares the tag when the query finds no declaration, then links the node to it. */
    method AddTag(node: string, tag: string)
      modifies this
      ensures g == old(g) + (if TagQueryTriple(tag) in old(g) then {} else {NodeTriple(tag, TagNodeClass)})
                          + {HasTagTriple(node, tag)}
    {
      var rows := GetTag(tag);
      if rows == 0 {
        AddNode(tag, TagNodeClass);
      }
      g := g + {HasTagTriple(node, tag)};
    }

    /** `add_edge`: inserts exactly the edge triple. */
    method AddEdge(source: string, target: string, edgeType: string)
      modifies this
      ensures g == old(g) + {EdgeTriple(source, target, edgeType)}
    {
      g := g + {EdgeTriple(source, target, edgeType)};
    }

    /** `add_property`: inserts exactly the literal triple. */
    method AddProperty(source: string, property: Value, propertyType: string)
      modifies this
      ensures g == old(g) + {PropertyTriple(source, property, propertyType)}
    {
      g := g + {PropertyTriple(source, property, propertyType)};
    }
  }

  /** The declaration `add_tag` inserts is never the one its query looks for. */
  lemma TagCheckBlind(tag: string)
    ensures NodeTriple(tag, TagNodeClass) != TagQueryTriple(tag)
  {
    assert TagNodeClass != "Tag";
  }

  /**
   * Tagging two different nodes with the same tag on a new graph: one declaration of the tag and two links,
   * because set insertion absorbs the second declaration that the blind query lets through.
   */
  method TagSameTagTwice(node1: string, node2: string, tag: string) returns (triples: set<Triple>)
    ensures triples == {NodeTriple(tag, TagNodeClass), HasTagTriple(node1, tag), HasTagTriple(node2, tag)}
    ensures node1 != node2 ==> |triples| == 3
  {
    var api := new BrickAPI();
    api.AddTag(node1, tag);
    TagCheckBlind(tag);
    api.AddTag(node2, tag);
    triples := api.g;
    if node1 != node2 {
      assert HasTagTriple(node1, tag) != HasTagTriple(node2, tag);
      assert NodeTriple(tag, TagNodeClass) != HasTagTriple(node1, tag);
      assert NodeTriple(tag, TagNodeClass) != HasTagTriple(node2, tag);
    }
  }

  /** Repeating every insertion changes nothing, and no insertion removes a triple. */
  method RepeatAdds(start: set<Triple>, node: string, nodeClass: string, source: string, target: string,
                    edgeType: string, property: Value, propertyType: string, tag: string)
    returns (once: set<Triple>, twice: set<Triple>)
    ensures start <= once && once == twice
    ensures once - start <= {NodeTriple(node, nodeClass), EdgeTriple(source, target, edgeType),
                             PropertyTriple(source, property, propertyType),
                             NodeTriple(tag, TagNodeClass), HasTagTriple(node, tag)}
    ensures HasTagTriple(node, tag) in once && NodeTriple(node, nodeClass) in once
  {
    var api := new BrickAPI();
    api.g := start;
    api.AddNode(node, nodeClass);
    api.AddEdge(source, target, edgeType);
    api.AddProperty(source, property, propertyType);
    api.AddTag(node, tag);
    once := api.g;
    api.AddNode(node, nodeClass);
    api.AddEdge(source, target, edgeType);
    api.AddProperty(source, property, propertyType);
    api.AddTag(node, tag);
    twice := api.g;
  }
}
