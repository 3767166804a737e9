/** The fixed catalogue of twelve outfit suggestions and the random pick from it. */
module Suggestions {

  const Catalogue: seq<string> := [
    "藍色襯衫 + 灰色牛仔褲 + 白色板鞋 (Blue Shirt, Grey Jeans & White Sneakers)",
    "白色素T + 深藍色直筒褲 + 經典帆布鞋 (White Tee, Navy Pants & Canvas Shoes)",
    "黑色連帽衛衣 + 卡其色工裝褲 + 黑色運動鞋 (Black Hoodie, Khaki Cargo Pants & Black Runners)",
    "條紋襯衫 + 黑色西裝短褲 + 樂福鞋 (Striped Shirt, Black Shorts & Loafers)",
    "米色針織衫 + 咖啡色百褶裙 + 瑪莉珍鞋 (Beige Knit, Brown Skirt & Mary Janes)",
    "牛仔外套 + 灰色棉褲 + 高筒帆布鞋 (Denim Jacket, Grey Sweatpants & High-top Canvas)",
    "淺綠色亞麻衫 + 白色寬褲 + 涼鞋 (Light Green Linen Shirt, White Wide-leg Pants & Sandals)",
    "深灰色毛衣 + 黑色皮裙 + 短靴 (Dark Grey Sweater, Black Leather Skirt & Ankle Boots)",
    "粉色襯衫 + 淺藍色牛仔褲 + 淺色老爹鞋 (Pink Shirt, Light Blue Jeans & Chunky Sneakers)",
    "藏青色 Polo 衫 + 白色休閒褲 + 德訓鞋 (Navy Polo, White Chinos & Army Trainers)",
    "格紋西裝外套 + 黑色緊身褲 + 尖頭平底鞋 (Plaid Blazer, Black Skinny Pants & Pointed Flats)",
    "黃色衛衣 + 深灰色運動褲 + 復古慢跑鞋 (Yellow Sweatshirt, Charcoal Joggers & Retro Runners)"
  ]

  /** `Math.floor(r * ITEM_SUGGESTIONS.length)` for a random `r` in [0, 1): always
      a valid index into the catalogue. */
  function PickIndex(r: real): (i: nat)
    requires 0.0 <= r < 1.0
    ensures i < |Catalogue| == 12
    ensures i as real <= r * 12.0 < (i + 1) as real
  {
    (r * |Catalogue| as real).Floor
  }

  /** The suggestion a draw with random number `r` shows. */
  function Draw(r: real): (s: string)
    requires 0.0 <= r < 1.0
    ensures s in Catalogue
  {
    Catalogue[PickIndex(r)]
  }

  /** The pick is uniform: index `i` is chosen exactly when `r` falls in the
      interval [i/12, (i+1)/12), and all twelve intervals have the same width. */
  lemma PickIndexInterval(r: real, i: nat)
    requires 0.0 <= r < 1.0 && i < 12
    ensures PickIndex(r) == i <==> i as real / 12.0 <= r < (i + 1) as real / 12.0
  {
  }

  /** Every suggestion can come up: the draw reaches each catalogue entry. */
  lemma DrawReachesEvery(i: nat)
    requires i < |Catalogue|
    ensures Draw(i as real / 12.0) == Catalogue[i]
  {
  }
}
