/** The standalone inspection app: answers keyed by question id, a photo list
    per question, and the three counters shown in its header. */
module Inspection {
  import opened Common
  import opened Forms

  /** A photo as the app keeps it; `id` is the millisecond clock value it was taken at. */
  datatype Foto = Foto(id: int, uri: string, fileName: string, mimeType: string, takenAt: string)

  /** `prev[questaoId] || []`. */
  function PhotosOf(fotos: map<string, seq<Foto>>, questaoId: string): seq<Foto>
  {
    if questaoId in fotos then fotos[questaoId] else []
  }

  /** The `setFotos` update of `adicionarFoto`: the new photo goes at the end of
      the question's list, which is created if absent; no other list changes. */
  function AdicionarFoto(fotos: map<string, seq<Foto>>, questaoId: string, novaFoto: Foto): (r: map<string, seq<Foto>>)
    ensures r.Keys == fotos.Keys + {questaoId}
    ensures r[questaoId] == PhotosOf(fotos, questaoId) + [novaFoto]
    ensures |r[questaoId]| == |PhotosOf(fotos, questaoId)| + 1
    ensures forall q :: q in fotos && q != questaoId ==> r[q] == fotos[q]
  {
    fotos[questaoId := PhotosOf(fotos, questaoId) + [novaFoto]]
  }

  /** The test `removerFoto` filters with: the photo does not carry `fotoId`. */
  function Keeping(fotoId: int): Foto -> bool
  {
    (f: Foto) => f.id != fotoId
  }

  /** The `setFotos` update of `removerFoto`: every photo with that id leaves the
      question's list, the others stay in their order; an absent list becomes empty. */
  function RemoverFoto(fotos: map<string, seq<Foto>>, questaoId: string, fotoId: int): (r: map<string, seq<Foto>>)
    ensures r.Keys == fotos.Keys + {questaoId}
    ensures forall q :: q in fotos && q != questaoId ==> r[q] == fotos[q]
    ensures forall f :: f in r[questaoId] ==> f.id != fotoId
    ensures forall f: Foto :: f.id != fotoId ==> multiset(r[questaoId])[f] == multiset(PhotosOf(fotos, questaoId))[f]
    ensures IsSubsequence(r[questaoId], PhotosOf(fotos, questaoId))
    ensures |r[questaoId]| <= |PhotosOf(fotos, questaoId)|
    ensures (forall f :: f in PhotosOf(fotos, questaoId) ==> f.id != fotoId) ==> r[questaoId] == PhotosOf(fotos, questaoId)
  {
    var before := PhotosOf(fotos, questaoId);
    FilterIsSubsequence(before, Keeping(fotoId));
    FilterKeepsAll(before, Keeping(fotoId));
    FilterMultiset(before, Keeping(fotoId));
    fotos[questaoId := Filter(before, Keeping(fotoId))]
  }

  /** Filtering out the id of a photo appended to a list without that id gives the list back. */
  lemma DropAppended(photos: seq<Foto>, novaFoto: Foto)
    requires forall f :: f in photos ==> f.id != novaFoto.id
    ensures Filter(photos + [novaFoto], Keeping(novaFoto.id)) == photos
  {
    FilterConcat(photos, [novaFoto], Keeping(novaFoto.id));
    FilterKeepsAll(photos, Keeping(novaFoto.id));
    assert [novaFoto][1..] == [];
  }

  /** Removing, by its id, a photo just added restores the question's list,
      provided no earlier photo of that question carries the same id. A question
      that had no list is left with an empty one, as `prev[questaoId] || []` does. */
  lemma RemoverAfterAdicionar(fotos: map<string, seq<Foto>>, questaoId: string, novaFoto: Foto)
    requires forall f :: f in PhotosOf(fotos, questaoId) ==> f.id != novaFoto.id
    ensures questaoId in fotos ==>
      RemoverFoto(AdicionarFoto(fotos, questaoId, novaFoto), questaoId, novaFoto.id) == fotos
    ensures questaoId !in fotos ==>
      RemoverFoto(AdicionarFoto(fotos, questaoId, novaFoto), questaoId, novaFoto.id) == fotos[questaoId := []]
  {
    var before := PhotosOf(fotos, questaoId);
    var added := AdicionarFoto(fotos, questaoId, novaFoto);
    assert PhotosOf(added, questaoId) == before + [novaFoto];
    DropAppended(before, novaFoto);
    if questaoId in fotos {
      assert added[questaoId := before] == fotos;
    } else {
      assert added[questaoId := before] == fotos[questaoId := []];
    }
  }

  // ---------------------------------------------------------------- totalQuestoes

  /** `secoes.reduce((acc, secao) => acc + secao.items.length, acc)`. */
  function SumItemCounts(secoes: seq<FormSection>, acc: nat): (n: nat)
    ensures n == acc + |AllItems(secoes)|
    decreases |secoes|
  {
    if secoes == [] then acc else SumItemCounts(secoes[1..], acc + |secoes[0].items|)
  }

  /** `totalQuestoes`: the number of items over all sections, the length of the flattened form. */
  function TotalQuestoes(questoes: seq<FormSection>): (n: nat)
    ensures n == |AllItems(questoes)|
  {
    SumItemCounts(questoes, 0)
  }

  // ---------------------------------------------------------------- totalRespostas

  /** The characters `String.prototype.trim` removes: white space and line terminators. */
  predicate IsWhitespace(c: char): (b: bool)
    ensures c == ' ' || c == '\t' || c == '\n' || c == '\r' ==> b
    ensures '!' <= c <= '~' ==> !b
  {
    c == '\t' || c == '\n' || c == '\U{000B}' || c == '\U{000C}' || c == '\r' || c == ' ' ||
    c == '\U{00A0}' || c == '\U{1680}' || ('\U{2000}' <= c <= '\U{200A}') ||
    c == '\U{2028}' || c == '\U{2029}' || c == '\U{202F}' || c == '\U{205F}' ||
    c == '\U{3000}' || c == '\U{FEFF}'
  }

  /** Leading white space removed: what remains is a suffix of `s`, everything
      removed is white space, and what remains does not start with white space. */
  function TrimStart(s: string): (r: string)
    ensures |r| <= |s| && r == s[|s| - |r|..]
    ensures forall i :: 0 <= i < |s| - |r| ==> IsWhitespace(s[i])
    ensures r != [] ==> !IsWhitespace(r[0])
  {
    if s != [] && IsWhitespace(s[0]) then TrimStart(s[1..]) else s
  }

  /** Trailing white space removed: what remains is a prefix of `s`, everything
      removed is white space, and what remains does not end with white space. */
  function TrimEnd(s: string): (r: string)
    ensures |r| <= |s| && r == s[..|r|]
    ensures forall i :: |r| <= i < |s| ==> IsWhitespace(s[i])
    ensures r != [] ==> !IsWhitespace(r[|r| - 1])
  {
    if s != [] && IsWhitespace(s[|s| - 1]) then TrimEnd(s[..|s| - 1]) else s
  }

  /** `s.trim()`. */
  function Trim(s: string): (r: string)
    ensures |r| <= |s|
    ensures r != [] ==> !IsWhitespace(r[0]) && !IsWhitespace(r[|r| - 1])
  {
    TrimEnd(TrimStart(s))
  }

  predicate AllWhitespace(s: string)
  {
    forall i :: 0 <= i < |s| ==> IsWhitespace(s[i])
  }

  lemma {:induction false} TrimStartBlank(s: string)
    ensures TrimStart(s) == [] <==> AllWhitespace(s)
    ensures TrimStart(s) != [] ==> !IsWhitespace(TrimStart(s)[0])
  {
    if s != [] && IsWhitespace(s[0]) {
      TrimStartBlank(s[1..]);
      assert AllWhitespace(s) <==> AllWhitespace(s[1..]) by {
        if AllWhitespace(s[1..]) {
          forall i | 0 <= i < |s| ensures IsWhitespace(s[i]) {
            if i > 0 { assert s[i] == s[1..][i - 1]; }
          }
        }
      }
    }
  }

  lemma {:induction false} TrimEndBlank(s: string)
    ensures TrimEnd(s) == [] <==> AllWhitespace(s)
  {
    if s != [] && IsWhitespace(s[|s| - 1]) {
      var init := s[..|s| - 1];
      TrimEndBlank(init);
      assert AllWhitespace(s) <==> AllWhitespace(init) by {
        if AllWhitespace(init) {
          forall i | 0 <= i < |s| ensures IsWhitespace(s[i]) {
            if i < |s| - 1 { assert s[i] == init[i]; }
          }
        }
      }
    } else if s != [] {
      assert !IsWhitespace(s[|s| - 1]);
    }
  }

  /** A value is blank once trimmed exactly when it is made of white space only. */
  lemma TrimBlank(s: string)
    ensures Trim(s) == [] <==> AllWhitespace(s)
  {
    TrimStartBlank(s);
    var t := TrimStart(s);
    TrimEndBlank(t);
    if t != [] {
      assert !IsWhitespace(t[0]);
    }
  }

  /** The key is counted by `totalRespostas`: its trimmed value is not empty and
      it is not an observation key. */
  predicate Counted(key: string, valor: string): (b: bool)
    ensures b <==> !AllWhitespace(valor) && !EndsWith(key, "_obs")
  {
    TrimBlank(valor);
    Trim(valor) != "" && !EndsWith(key, "_obs")
  }

  /** The keys `totalRespostas` counts. */
  function CountedKeys(respostas: map<string, string>): (keys: set<string>)
    ensures keys <= respostas.Keys
  {
    set k | k in respostas && Counted(k, respostas[k])
  }

  /** `totalRespostas`: the number of answer keys that are counted. */
  function TotalRespostas(respostas: map<string, string>): (n: nat)
    ensures n <= |respostas|
  {
    CardinalityOfSubset(CountedKeys(respostas), respostas.Keys);
    |CountedKeys(respostas)|
  }

  lemma {:induction false} CardinalityOfSubset<K>(a: set<K>, b: set<K>)
    requires a <= b
    ensures |a| <= |b|
    decreases |b|
  {
    if a != {} {
      var x :| x in a;
      CardinalityOfSubset(a - {x}, b - {x});
    }
  }

  lemma CountedKeysAfterAtualizar(respostas: map<string, string>, id: string, valor: string)
    ensures CountedKeys(AtualizarResposta(respostas, id, valor)) ==
      (CountedKeys(respostas) - {id}) + (if Counted(id, valor) then {id} else {})
  {
    var r := AtualizarResposta(respostas, id, valor);
    forall k
      ensures k in CountedKeys(r) <==> k in (CountedKeys(respostas) - {id}) + (if Counted(id, valor) then {id} else {})
    {
      if k != id {
        assert k in r <==> k in respostas;
      }
    }
  }

  /** Setting an answer changes `totalRespostas` by what that one key contributes:
      an `_obs` key or a blank value never adds to it. */
  lemma TotalRespostasAfterAtualizar(respostas: map<string, string>, id: string, valor: string)
    ensures TotalRespostas(AtualizarResposta(respostas, id, valor)) ==
      TotalRespostas(respostas)
        - (if id in respostas && Counted(id, respostas[id]) then 1 else 0)
        + (if Counted(id, valor) then 1 else 0)
  {
    var before := CountedKeys(respostas);
    CountedKeysAfterAtualizar(respostas, id, valor);
    CardinalityTakeOut(before, id);
    CardinalityTakeOut(CountedKeys(AtualizarResposta(respostas, id, valor)), id);
  }

  lemma CardinalityTakeOut<K>(s: set<K>, x: K)
    ensures |s| == |s - {x}| + (if x in s then 1 else 0)
  {
    if x in s {
      assert s == (s - {x}) + {x};
    } else {
      assert s == s - {x};
    }
  }

  // ---------------------------------------------------------------- totalFotos

  /** `totalFotos`: the length of all photo lists put together. */
  ghost function TotalFotos(fotos: map<string, seq<Foto>>): (n: nat)
    ensures forall q :: q in fotos ==> |fotos[q]| <= n
    decreases |fotos|
  {
    if fotos == map[] then 0
    else
      var q :| q in fotos;
      var rest := fotos - {q};
      assert rest.Keys == fotos.Keys - {q};
      assert forall q' :: q' in fotos && q' != q ==> q' in rest && rest[q'] == fotos[q'];
      |fotos[q]| + TotalFotos(rest)
  }

  /** Any question's list can be taken out first. */
  lemma {:induction false} TotalFotosTakeOut(fotos: map<string, seq<Foto>>, questaoId: string)
    requires questaoId in fotos
    ensures TotalFotos(fotos) == |fotos[questaoId]| + TotalFotos(fotos - {questaoId})
    decreases |fotos|
  {
    var q :| q in fotos && TotalFotos(fotos) == |fotos[q]| + TotalFotos(fotos - {q});
    if q != questaoId {
      assert (fotos - {q}).Keys == fotos.Keys - {q};
      assert (fotos - {questaoId}).Keys == fotos.Keys - {questaoId};
      TotalFotosTakeOut(fotos - {q}, questaoId);
      TotalFotosTakeOut(fotos - {questaoId}, q);
      assert fotos - {q} - {questaoId} == fotos - {questaoId} - {q};
    }
  }

  /** Replacing one question's list changes the total by the difference in length. */
  lemma TotalFotosReplace(fotos: map<string, seq<Foto>>, questaoId: string, photos: seq<Foto>)
    ensures TotalFotos(fotos[questaoId := photos]) + |PhotosOf(fotos, questaoId)| == TotalFotos(fotos) + |photos|
  {
    var r := fotos[questaoId := photos];
    TotalFotosTakeOut(r, questaoId);
    if questaoId in fotos {
      TotalFotosTakeOut(fotos, questaoId);
      assert r - {questaoId} == fotos - {questaoId};
    } else {
      assert r - {questaoId} == fotos;
    }
  }

  /** Adding a photo adds one to `totalFotos`. */
  lemma TotalFotosAfterAdicionar(fotos: map<string, seq<Foto>>, questaoId: string, novaFoto: Foto)
    ensures TotalFotos(AdicionarFoto(fotos, questaoId, novaFoto)) == TotalFotos(fotos) + 1
  {
    TotalFotosReplace(fotos, questaoId, PhotosOf(fotos, questaoId) + [novaFoto]);
  }

  /** Removing a photo lowers `totalFotos` by exactly the number of photos that left the list. */
  lemma TotalFotosAfterRemover(fotos: map<string, seq<Foto>>, questaoId: string, fotoId: int)
    ensures var r := RemoverFoto(fotos, questaoId, fotoId);
      TotalFotos(r) == TotalFotos(fotos) - (|PhotosOf(fotos, questaoId)| - |r[questaoId]|)
    ensures TotalFotos(RemoverFoto(fotos, questaoId, fotoId)) <= TotalFotos(fotos)
  {
    var r := RemoverFoto(fotos, questaoId, fotoId);
    TotalFotosReplace(fotos, questaoId, r[questaoId]);
  }
}
