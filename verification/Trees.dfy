/** The message trees that server and clients exchange, as values. A char stands for one byte of a std::string. */
module Trees {
  import opened Basics

  datatype Tree = Tree(key: string, content: string, subs: seq<Tree>)

  function Leaf(key: string, content: string): Tree {
    Tree(key, content, [])
  }

  function Add(t: Tree, sub: Tree): Tree {
    t.(subs := t.subs + [sub])
  }

  /** The first child with the key. */
  function Sub(t: Tree, key: string): Option<Tree> {
    SubIn(t.subs, key)
  }

  function SubIn(subs: seq<Tree>, key: string): Option<Tree> {
    if subs == [] then None
    else if subs[0].key == key then Some(subs[0])
    else SubIn(subs[1..], key)
  }

  /** The content of the first child with the key. */
  function SubText(t: Tree, key: string): Option<string> {
    match Sub(t, key)
    case None => None
    case Some(sub) => Some(sub.content)
  }

  lemma {:induction false} SubAt(subs: seq<Tree>, i: nat, key: string)
    requires i < |subs| && subs[i].key == key && forall j :: 0 <= j < i ==> subs[j].key != key
    ensures SubIn(subs, key) == Some(subs[i])
  {
    if i > 0 {
      SubAt(subs[1..], i - 1, key);
    }
  }
}
