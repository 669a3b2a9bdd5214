/**
 * The category grid of the discovery screen and the fixed table that turns
 * a category id into the phrases searched for it.
 */
module Categories {

  datatype Category = Category(id: string, name: string, icon: string)

  /** The eight categories offered as buttons, in display order. */
  const AllCategories: seq<Category> := [
    Category("plumbing", "설비", "🔧"),
    Category("electronics", "전자기기", "📱"),
    Category("appliance", "가전제품", "🔌"),
    Category("interior", "인테리어", "🏠"),
    Category("boiler", "보일러", "♨️"),
    Category("aircon", "에어컨", "❄️"),
    Category("car", "자동차", "🚗"),
    Category("computer", "PC/노트북", "💻")
  ]

  /** The lookup table, written as a map from category id to its phrases. */
  const QueryTable: map<string, seq<string>> := map[
    "plumbing" := ["설비", "배관"],
    "electronics" := ["전자기기 수리", "휴대폰 수리"],
    "appliance" := ["가전제품 수리", "가전 수리"],
    "interior" := ["인테리어", "집수리"],
    "boiler" := ["보일러 설치", "보일러 수리"],
    "aircon" := ["에어컨 설치", "에어컨 수리"],
    "car" := ["자동차 정비", "카센터"],
    "computer" := ["컴퓨터 수리", "PC 수리"]
  ]

  /** The phrase searched for an id the table does not know. */
  const FallbackQueries: seq<string> := ["수리"]

  /**
   * The phrases searched for a category: the table's entry, or the
   * fallback when the id has none. Never empty, so a category search
   * always issues at least one request.
   */
  function QueriesFor(category: string): (qs: seq<string>)
    ensures |qs| >= 1
    ensures category !in QueryTable ==> qs == ["수리"]
    ensures category in QueryTable ==> |qs| == 2
  {
    if category in QueryTable then QueryTable[category] else FallbackQueries
  }

  /** Every button of the grid has an entry in the table, and the table has no other entry. */
  lemma TableCoversExactlyTheGrid(category: string)
    ensures category in QueryTable <==> exists i :: 0 <= i < |AllCategories| && AllCategories[i].id == category
  {
    if category in QueryTable {
      var i := if category == "plumbing" then 0 else if category == "electronics" then 1
        else if category == "appliance" then 2 else if category == "interior" then 3
        else if category == "boiler" then 4 else if category == "aircon" then 5
        else if category == "car" then 6 else 7;
      assert AllCategories[i].id == category;
    }
  }

  /** The fixed phrases of each of the eight categories. */
  lemma QueriesOfEachCategory()
    ensures QueriesFor("plumbing") == ["설비", "배관"]
    ensures QueriesFor("electronics") == ["전자기기 수리", "휴대폰 수리"]
    ensures QueriesFor("appliance") == ["가전제품 수리", "가전 수리"]
    ensures QueriesFor("interior") == ["인테리어", "집수리"]
    ensures QueriesFor("boiler") == ["보일러 설치", "보일러 수리"]
    ensures QueriesFor("aircon") == ["에어컨 설치", "에어컨 수리"]
    ensures QueriesFor("car") == ["자동차 정비", "카센터"]
    ensures QueriesFor("computer") == ["컴퓨터 수리", "PC 수리"]
  {
  }

  /** Any id that is not one of the eight buttons' falls back to the single phrase "수리". */
  lemma UnknownCategoryFallsBack(category: string)
    requires forall i :: 0 <= i < |AllCategories| ==> AllCategories[i].id != category
    ensures QueriesFor(category) == ["수리"]
  {
    TableCoversExactlyTheGrid(category);
  }
}
