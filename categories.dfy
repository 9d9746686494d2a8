/** The gathering categories of lib/constants.ts and the label lookup the
    pages use to show a category. */
module Categories {
  import opened Common
  import opened Seqs

  /** An entry of the table; `name` is the entry's `label`. */
  datatype Category = Category(id: string, name: string, icon: string, description: string)

  /** `CATEGORIES`, in its declared order. */
  const Categories: seq<Category> := [
    Category("networking", "네트워킹/대화", "☕", "가볍게 커피 한 잔하며 대화해요"),
    Category("lunch", "점심/밥약", "🍱", "직장인의 소중한 점심시간"),
    Category("meal", "저녁/술자리", "🍻", "맛있는 음식과 술 한 잔"),
    Category("study", "스터디/자기계발", "📚", "함께 성장하는 시간"),
    Category("workout", "운동/액티비티", "🏃", "함께 땀 흘리며 스트레스 해소"),
    Category("culture", "문화/예술", "🎨", "영화, 전시, 공연 관람"),
    Category("hobby", "취미/공방", "🧶", "원데이 클래스, 만들기"),
    Category("travel", "여행/나들이", "✈️", "가까운 교외나 핫플레이스로"),
    Category("game", "게임/오락", "🎮", "보드게임, 방탈출, PC방"),
    Category("chat", "수다/고민", "💬", "편하게 이야기 나누아요")
  ]

  function CategoryId(c: Category): string {
    c.id
  }

  /** `categories.find(c => c.id === id)`: the first entry with that id. */
  function Find(categories: seq<Category>, id: string): (r: Option<Category>)
    ensures r.None? <==> forall c :: c in categories ==> c.id != id
    ensures r.Some? ==> exists i :: 0 <= i < |categories| && categories[i] == r.value && r.value.id == id
                                    && forall k :: 0 <= k < i ==> categories[k].id != id
  {
    if categories == [] then None
    else if categories[0].id == id then Some(categories[0])
    else
      var r := Find(categories[1..], id);
      assert forall c :: c in categories[1..] ==> c in categories;
      assert categories == [categories[0]] + categories[1..];
      if r.Some? then
        ghost var i :| 0 <= i < |categories[1..]| && categories[1..][i] == r.value && r.value.id == id
                       && forall k :: 0 <= k < i ==> categories[1..][k].id != id;
        assert categories[i + 1] == r.value;
        assert forall k :: 0 <= k < i + 1 ==> categories[k].id != id by {
          forall k | 0 <= k < i + 1 ensures categories[k].id != id {
            if k > 0 { assert categories[k] == categories[1..][k - 1]; }
          }
        }
        r
      else r
  }

  /** The label lookup over a given table. */
  function LabelIn(categories: seq<Category>, id: Field): string {
    if !Truthy(id) then ""
    else match Find(categories, id.text)
         case Some(c) => c.icon + " " + c.name
         case None => id.text
  }

  /** `getCategoryLabel(id)`. */
  function GetCategoryLabel(id: Field): string {
    LabelIn(Categories, id)
  }

  /** No two categories share an id, so the lookup is unambiguous. */
  lemma CategoryIdsDistinct()
    ensures UniqueBy(Categories, CategoryId)
    ensures forall c :: c in Categories ==> c.id != ""
  {
    TagsInOrder();
    IdTagsDistinct();
    forall i, j | 0 <= i < j < |Categories| ensures CategoryId(Categories[i]) != CategoryId(Categories[j]) {
      assert IdTag(Categories[i].id) != IdTag(Categories[j].id);
    }
    forall c | c in Categories ensures c.id != "" {
      var k :| 0 <= k < |Categories| && Categories[k] == c;
      assert IdTag(c.id) == IdTags[k];
    }
  }

  /** The first two characters of an id, as one number: they already tell the entries apart. */
  function IdTag(id: string): int {
    if |id| < 2 then 0 else id[0] as int * 0x100 + id[1] as int
  }

  /** The tags of the ids, in table order. */
  const IdTags: seq<int> := [0x6e65, 0x6c75, 0x6d65, 0x7374, 0x776f, 0x6375, 0x686f, 0x7472, 0x6761, 0x6368]

  /** Entry `k`'s id has tag `IdTags[k]`. */
  lemma TagsInOrder()
    ensures forall k :: 0 <= k < |Categories| ==> IdTag(Categories[k].id) == IdTags[k]
  {
    var tags := seq(|Categories|, k requires 0 <= k < |Categories| => IdTag(Categories[k].id));
    assert tags == IdTags;
  }

  /** The ten tags are pairwise distinct and none is zero. */
  lemma IdTagsDistinct()
    ensures forall i, j :: 0 <= i < j < |IdTags| ==> IdTags[i] != IdTags[j]
    ensures forall k :: 0 <= k < |IdTags| ==> IdTags[k] != 0
  {
  }

  /** Every id's tag is one of `IdTags`. */
  lemma CategoryTags()
    ensures forall c :: c in Categories ==> IdTag(c.id) in IdTags
  {
    TagsInOrder();
    forall c | c in Categories ensures IdTag(c.id) in IdTags {
      var k :| 0 <= k < |Categories| && Categories[k] == c;
      assert IdTags[k] in IdTags;
    }
  }

  /** A null, undefined or empty id is shown as nothing. */
  lemma MissingIdShowsNothing(id: Field)
    requires !Truthy(id)
    ensures GetCategoryLabel(id) == ""
  {
  }

  /** In a table with distinct ids, looking up an entry's id finds that entry. */
  lemma FindsOwnEntry(categories: seq<Category>, i: nat)
    requires UniqueBy(categories, CategoryId)
    requires i < |categories|
    ensures Find(categories, categories[i].id) == Some(categories[i])
  {
    var r := Find(categories, categories[i].id);
    assert r.Some? by {
      assert categories[i] in categories;
    }
    var k :| 0 <= k < |categories| && categories[k] == r.value && r.value.id == categories[i].id
             && forall m :: 0 <= m < k ==> categories[m].id != categories[i].id;
    assert CategoryId(categories[k]) == CategoryId(categories[i]);
    assert k <= i;
    assert k == i;
  }

  /** A known id shows its own entry's icon, a space and its label. */
  lemma KnownIdShowsIconAndLabel(i: nat)
    requires i < |Categories|
    ensures GetCategoryLabel(Text(Categories[i].id)) == Categories[i].icon + " " + Categories[i].name
  {
    CategoryIdsDistinct();
    assert Categories[i] in Categories;
    FindsOwnEntry(Categories, i);
  }

  /** Any other non-empty id is shown as it is. */
  lemma UnknownIdShowsItself(id: string)
    requires id != ""
    requires forall c :: c in Categories ==> c.id != id
    ensures GetCategoryLabel(Text(id)) == id
  {
  }
}
