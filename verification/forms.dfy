/** The in-app shape of an inspection form (sections of items), as both the
    fetched schema and the built-in form of the standalone app use it, and the
    answer update both screens perform. */
module Forms {
  import opened Common

  datatype FormItem = FormItem(
    id: string,
    tipo: string,
    labelText: string,
    obrigatorio: bool,
    opcoes: seq<string>,
    permiteAnexo: bool,
    showObservations: bool,
    observationsLabel: Option<string>)

  datatype FormSection = FormSection(id: string, categoria: string, items: seq<FormItem>)

  /** `sections.flatMap(s => s.items)`. */
  function AllItems(sections: seq<FormSection>): (r: seq<FormItem>)
    ensures |sections| == 1 ==> r == sections[0].items
  {
    if sections == [] then [] else sections[0].items + AllItems(sections[1..])
  }

  /** Flattening distributes over concatenation of section lists. */
  lemma {:induction false} AllItemsConcat(a: seq<FormSection>, b: seq<FormSection>)
    ensures AllItems(a + b) == AllItems(a) + AllItems(b)
  {
    if a != [] {
      assert (a + b)[1..] == a[1..] + b;
      AllItemsConcat(a[1..], b);
    } else {
      assert a + b == b;
    }
  }

  predicate IsRequired(item: FormItem) { item.obrigatorio }

  /** The required items of a form, in section-then-item order. */
  function RequiredItems(sections: seq<FormSection>): (r: seq<FormItem>)
    ensures forall item :: item in r ==> item.obrigatorio
    ensures forall item :: multiset(r)[item] == if item.obrigatorio then multiset(AllItems(sections))[item] else 0
    ensures IsSubsequence(r, AllItems(sections))
  {
    FilterIsSubsequence(AllItems(sections), IsRequired);
    FilterMultiset(AllItems(sections), IsRequired);
    Filter(AllItems(sections), IsRequired)
  }

  /** `{ ...respostas, [id]: valor }`: the key `id` now holds `valor`, every other key is untouched. */
  function AtualizarResposta<V>(respostas: map<string, V>, id: string, valor: V): (r: map<string, V>)
    ensures r.Keys == respostas.Keys + {id}
    ensures r[id] == valor
    ensures forall k :: k in respostas && k != id ==> r[k] == respostas[k]
  {
    respostas[id := valor]
  }
}
