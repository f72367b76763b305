/** Logs in which every row is hashed together with the hash of the row before it. The hash is any function into 64
    hexadecimal digits, so nothing here rests on it being injective: what could go wrong is named as a collision. */
module HashChain {
  import opened DelimitedText

  predicate IsHex(c: char) {
    '0' <= c <= '9' || 'a' <= c <= 'f'
  }

  lemma HexDigits(c: char)
    ensures IsHex(c) <==> c in "0123456789abcdef"
  {
  }

  type Digest = d: string | |d| == 64 && forall k :: 0 <= k < |d| ==> IsHex(d[k]) witness seq(64, _ => '0')

  /** How a log spells a row for hashing: a separator, the fields before and after the free payload, and where the
      previous hash goes. */
  datatype Layout = Layout(sep: char, lefts: nat, rights: nat, hashFirst: bool, genesis: string)

  datatype Fields = Fields(left: seq<string>, payload: string, right: seq<string>)

  datatype Link = Link(fields: Fields, hash: Digest)

  predicate Sound(layout: Layout) {
    !IsHex(layout.sep) && SepFree(layout.sep, layout.genesis) && |layout.genesis| != 64
  }

  predicate Fits(layout: Layout, fields: Fields) {
    && |fields.left| == layout.lefts && AllSepFree(layout.sep, fields.left)
    && |fields.right| == layout.rights && AllSepFree(layout.sep, fields.right)
  }

  predicate AllFit(layout: Layout, links: seq<Link>) {
    forall k :: 0 <= k < |links| ==> Fits(layout, links[k].fields)
  }

  function Content(layout: Layout, fields: Fields, previous: string): string {
    if layout.hashFirst then Text(layout.sep, [previous] + fields.left, fields.payload, fields.right)
    else Text(layout.sep, fields.left, fields.payload, fields.right + [previous])
  }

  /** The hash a row appended next would be chained to. */
  function Tail(layout: Layout, links: seq<Link>): string {
    if links == [] then layout.genesis else links[|links| - 1].hash
  }

  ghost predicate Chained(hash: string -> Digest, layout: Layout, links: seq<Link>) {
    forall k {:trigger ContentAt(layout, links, k)} :: 0 <= k < |links| ==>
        links[k].hash == hash(ContentAt(layout, links, k))
  }

  function ContentAt(layout: Layout, links: seq<Link>, k: int): string
    requires 0 <= k < |links|
  {
    Content(layout, links[k].fields, Tail(layout, links[..k]))
  }

  /** Two rows, one of each log, that were hashed from different contents to the same digest. */
  ghost predicate Collide(hash: string -> Digest, layout: Layout, xs: seq<Link>, ys: seq<Link>) {
    exists i, j ::
      && 0 <= i < |xs| && 0 <= j < |ys|
      && ContentAt(layout, xs, i) != ContentAt(layout, ys, j)
      && hash(ContentAt(layout, xs, i)) == hash(ContentAt(layout, ys, j))
  }

  lemma ContentIsUnique(layout: Layout, f: Fields, p: string, g: Fields, q: string)
    requires Fits(layout, f) && Fits(layout, g) && SepFree(layout.sep, p) && SepFree(layout.sep, q)
    ensures Content(layout, f, p) == Content(layout, g, q) <==> f == g && p == q
  {
    if layout.hashFirst {
      TextIsUnique(layout.sep, [p] + f.left, f.payload, f.right, [q] + g.left, g.payload, g.right);
      assert ([p] + f.left)[1..] == f.left && ([q] + g.left)[1..] == g.left;
    } else {
      TextIsUnique(layout.sep, f.left, f.payload, f.right + [p], g.left, g.payload, g.right + [q]);
      assert (f.right + [p])[..|f.right|] == f.right && (g.right + [q])[..|g.right|] == g.right;
      assert (f.right + [p])[|f.right|] == p && (g.right + [q])[|g.right|] == q;
    }
  }

  lemma ContentSeesPrevious(layout: Layout, f: Fields, p: string, q: string)
    ensures Content(layout, f, p) == Content(layout, f, q) <==> p == q
  {
    if layout.hashFirst {
      assert ([p] + f.left)[1..] == f.left && ([q] + f.left)[1..] == f.left;
      var rest := [layout.sep] + Before(layout.sep, f.left) + f.payload + Behind(layout.sep, f.right);
      assert Content(layout, f, p) == p + rest && Content(layout, f, q) == q + rest;
      assert (p + rest)[..|p|] == p && (q + rest)[..|q|] == q;
    } else {
      assert (f.right + [p])[..|f.right|] == f.right && (f.right + [q])[..|f.right|] == f.right;
      var rest := Before(layout.sep, f.left) + f.payload + Behind(layout.sep, f.right) + [layout.sep];
      assert Content(layout, f, p) == rest + p && Content(layout, f, q) == rest + q;
      assert (rest + p)[|rest|..] == p && (rest + q)[|rest|..] == q;
    }
  }

  lemma TailIsSepFree(layout: Layout, links: seq<Link>)
    requires Sound(layout)
    ensures SepFree(layout.sep, Tail(layout, links))
  {}

  lemma PrefixContents(layout: Layout, links: seq<Link>, n: nat)
    requires n <= |links|
    ensures forall k :: 0 <= k < n ==> ContentAt(layout, links[..n], k) == ContentAt(layout, links, k)
  {
    forall k | 0 <= k < n ensures ContentAt(layout, links[..n], k) == ContentAt(layout, links, k) {
      assert links[..n][..k] == links[..k];
    }
  }

  lemma PrefixIsChained(hash: string -> Digest, layout: Layout, links: seq<Link>, n: nat)
    requires n <= |links| && Chained(hash, layout, links)
    ensures Chained(hash, layout, links[..n])
  {
    PrefixContents(layout, links, n);
  }

  lemma PrefixCollision(hash: string -> Digest, layout: Layout, xs: seq<Link>, m: nat, ys: seq<Link>, n: nat)
    requires m <= |xs| && n <= |ys| && Collide(hash, layout, xs[..m], ys[..n])
    ensures Collide(hash, layout, xs, ys)
  {
    PrefixContents(layout, xs, m);
    PrefixContents(layout, ys, n);
    var i, j :| 0 <= i < m && 0 <= j < n
      && ContentAt(layout, xs[..m], i) != ContentAt(layout, ys[..n], j)
      && hash(ContentAt(layout, xs[..m], i)) == hash(ContentAt(layout, ys[..n], j));
    assert ContentAt(layout, xs, i) != ContentAt(layout, ys, j);
  }

  /** Equal contents at two rows: the rows say the same and follow the same hash. */
  lemma ContentsAgree(layout: Layout, xs: seq<Link>, m: nat, ys: seq<Link>, n: nat)
    requires Sound(layout) && m < |xs| && n < |ys|
    requires Fits(layout, xs[m].fields) && Fits(layout, ys[n].fields)
    ensures ContentAt(layout, xs, m) == ContentAt(layout, ys, n) <==>
            xs[m].fields == ys[n].fields && Tail(layout, xs[..m]) == Tail(layout, ys[..n])
  {
    TailIsSepFree(layout, xs[..m]);
    TailIsSepFree(layout, ys[..n]);
    ContentIsUnique(layout, xs[m].fields, Tail(layout, xs[..m]), ys[n].fields, Tail(layout, ys[..n]));
  }

  lemma LastRowsAgree(hash: string -> Digest, layout: Layout, xs: seq<Link>, ys: seq<Link>)
    requires Sound(layout) && AllFit(layout, xs) && AllFit(layout, ys)
    requires Chained(hash, layout, xs) && Chained(hash, layout, ys)
    requires xs != [] && ys != [] && Tail(layout, xs) == Tail(layout, ys)
    ensures var m, n := |xs| - 1, |ys| - 1;
            Collide(hash, layout, xs, ys) || (xs[m] == ys[n] && Tail(layout, xs[..m]) == Tail(layout, ys[..n]))
  {
    var m, n := |xs| - 1, |ys| - 1;
    assert hash(ContentAt(layout, xs, m)) == hash(ContentAt(layout, ys, n));
    if ContentAt(layout, xs, m) == ContentAt(layout, ys, n) {
      ContentsAgree(layout, xs, m, ys, n);
    }
  }

  /** The tail determines the whole history: chained logs with the same tail are equal row by row, or they exhibit a
      collision. */
  lemma {:induction false} TailDeterminesHistory(hash: string -> Digest, layout: Layout, xs: seq<Link>, ys: seq<Link>)
    requires Sound(layout) && AllFit(layout, xs) && AllFit(layout, ys)
    requires Chained(hash, layout, xs) && Chained(hash, layout, ys)
    requires Tail(layout, xs) == Tail(layout, ys)
    ensures xs == ys || Collide(hash, layout, xs, ys)
    decreases |xs|
  {
    if xs != [] && ys != [] {
      LastRowsAgree(hash, layout, xs, ys);
      if !Collide(hash, layout, xs, ys) {
        var m, n := |xs| - 1, |ys| - 1;
        PrefixIsChained(hash, layout, xs, m);
        PrefixIsChained(hash, layout, ys, n);
        TailDeterminesHistory(hash, layout, xs[..m], ys[..n]);
        if xs[..m] == ys[..n] {
          assert xs == xs[..m] + [xs[m]] && ys == ys[..n] + [ys[n]];
        } else {
          PrefixCollision(hash, layout, xs, m, ys, n);
        }
      }
    }
  }

  /** Tamper evidence, both ways: short of a collision, the tails agree exactly when the histories do. */
  lemma TailsAgreeIffHistoriesDo(hash: string -> Digest, layout: Layout, xs: seq<Link>, ys: seq<Link>)
    requires Sound(layout) && AllFit(layout, xs) && AllFit(layout, ys)
    requires Chained(hash, layout, xs) && Chained(hash, layout, ys)
    requires !Collide(hash, layout, xs, ys)
    ensures Tail(layout, xs) == Tail(layout, ys) <==> xs == ys
  {
    if Tail(layout, xs) == Tail(layout, ys) {
      TailDeterminesHistory(hash, layout, xs, ys);
    }
  }

  /** A row keeps the chain exactly when its hash is the one that follows the tail. */
  lemma AppendKeepsChain(hash: string -> Digest, layout: Layout, links: seq<Link>, link: Link)
    requires Chained(hash, layout, links)
    ensures Chained(hash, layout, links + [link]) <==>
        link.hash == hash(Content(layout, link.fields, Tail(layout, links)))
  {
    var more, last := links + [link], |links|;
    assert more[..last] == links && more[last] == link;
    assert ContentAt(layout, more, last) == Content(layout, link.fields, Tail(layout, links));
    forall k | 0 <= k < last ensures more[k].hash == hash(ContentAt(layout, more, k)) {
      assert more[k] == links[k] && more[..k] == links[..k];
      assert ContentAt(layout, more, k) == ContentAt(layout, links, k);
    }
  }
}
