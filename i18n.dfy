/**
 * The translation layer: a table from message keys to their English,
 * Vietnamese and Korean texts, the lookup with its fallback to the key, and
 * the choice of the current language from the saved preference or the
 * browser's language tag.
 */
module I18n {
  import opened Wrappers
  import opened Text

  datatype Language = En | Vi | Ko

  /** The code a language is saved and reported under. */
  function Code(l: Language): string
  {
    match l
    case En => "en"
    case Vi => "vi"
    case Ko => "ko"
  }

  /** One row of the table: the text of a key in each language. */
  datatype Entry = Entry(en: string, vi: string, ko: string)

  function Pick(e: Entry, l: Language): string
  {
    match l
    case En => e.en
    case Vi => e.vi
    case Ko => e.ko
  }

  /** The "Navigation" group of keys. */
  const NavigationTexts: map<string, Entry> :=
    map[
      "nav.home" := Entry("Home", "Trang chủ", "홈"),
      "nav.about" := Entry("About", "Giới thiệu", "소개"),
      "nav.skills" := Entry("Skills", "Kỹ năng", "기술"),
      "nav.projects" := Entry("Projects", "Dự án", "프로젝트"),
      "nav.contact" := Entry("Contact", "Liên hệ", "연락처")
    ]

  /** The "Header" group of keys. */
  const HeaderTexts: map<string, Entry> :=
    map[
      "header.greeting" := Entry("Hello, I'm", "Xin chào, tôi là", "안녕하세요, 저는"),
      "header.name" := Entry("Aleam Z", "Aleam Z", "Aleam Z"),
      "header.title" := Entry("Full-Stack Developer", "Lập trình viên Full-Stack", "풀스택 개발자"),
      "header.description" := Entry("Passionate about creating innovative web solutions", "Đam mê tạo ra các giải pháp web sáng tạo", "혁신적인 웹 솔루션을 만드는 것에 열정을 가짐")
    ]

  /** The "Home Section" group of keys. */
  const HomeTexts: map<string, Entry> :=
    map[
      "home.greeting" := Entry("Hello World!", "Xin chào thế giới!", "안녕하세요 세계!"),
      "home.subtitle" := Entry("Passionate Fullstack Developer with expertise in React and modern web technologies", "Lập trình viên Fullstack đam mê với chuyên môn về React và công nghệ web hiện đại", "React와 현대적인 웹 기술에 전문성을 가진 열정적인 풀스택 개발자"),
      "home.description" := Entry("I create digital experiences that combine cutting-edge technology with beautiful design. Specializing in React, TypeScript, Node.js, and ASP.NET development. Graduate from University of Greenwich with Bachelor of Information Technology.", "Tôi tạo ra những trải nghiệm kỹ thuật số kết hợp công nghệ tiên tiến với thiết kế đẹp mắt. Chuyên về phát triển React, TypeScript, Node.js và ASP.NET. Tốt nghiệp Đại học Greenwich với bằng Cử nhân Công nghệ Thông tin.", "최첨단 기술과 아름다운 디자인을 결합한 디지털 경험을 만듭니다. React, TypeScript, Node.js 및 ASP.NET 개발을 전문으로 합니다. 그리니치 대학교 정보기술학사 졸업."),
      "home.stats.experience" := Entry("Years Experience", "Năm kinh nghiệm", "년 경험"),
      "home.stats.projects" := Entry("Projects Completed", "Dự án hoàn thành", "완료된 프로젝트"),
      "home.stats.satisfaction" := Entry("Client Satisfaction", "Sự hài lòng khách hàng", "고객 만족도"),
      "home.cta.viewWork" := Entry("View My Work", "Xem công việc của tôi", "내 작업 보기"),
      "home.cta.getInTouch" := Entry("Get In Touch", "Liên hệ với tôi", "연락하기"),
      "home.code.building" := Entry("Building amazing apps!", "Xây dựng những ứng dụng tuyệt vời!", "놀라운 앱을 만드는 중!"),
      "home.code.learning" := Entry("Always learning new tech!", "Luôn học hỏi công nghệ mới!", "항상 새로운 기술을 배우는 중!")
    ]

  /** The "Skills Section" group of keys. */
  const SkillsTexts: map<string, Entry> :=
    map[
      "skills.title" := Entry("My Skills", "Kỹ năng của tôi", "내 기술"),
      "skills.subtitle" := Entry("Technologies and tools I use to bring ideas to life", "Công nghệ và công cụ tôi sử dụng để biến ý tưởng thành hiện thực", "아이디어를 현실로 만드는 데 사용하는 기술과 도구"),
      "skills.view.3d" := Entry("3D Showcase", "Trưng bày 3D", "3D 쇼케이스"),
      "skills.view.grid" := Entry("Grid", "Lưới", "그리드"),
      "skills.hobbies.title" := Entry("My Hobbies", "Sở thích của tôi", "내 취미"),
      "skills.hobbies.travel" := Entry("Travel", "Phượt", "여행"),
      "skills.hobbies.travel.desc" := Entry("Exploring new routes, experiencing culture and beautiful landscapes", "Khám phá những cung đường mới, trải nghiệm văn hóa và cảnh đẹp", "새로운 경로 탐험, 문화와 아름다운 풍경 체험"),
      "skills.hobbies.football" := Entry("Football", "Bóng Đá", "축구"),
      "skills.hobbies.football.desc" := Entry("Passionate about sports, fitness training and team spirit", "Đam mê thể thao, rèn luyện sức khỏe và tinh thần đồng đội", "스포츠에 대한 열정, 피트니스 훈련 및 팀워크"),
      "skills.hobbies.gaming" := Entry("Gaming", "Gaming", "게임"),
      "skills.hobbies.gaming.desc" := Entry("Enjoy strategy games and technology entertainment", "Thích thú với các game chiến thuật và giải trí công nghệ", "전략 게임과 기술 엔터테인먼트를 즐김"),
      "skills.hobbies.farming" := Entry("Farming", "Farmer", "농업"),
      "skills.hobbies.farming.desc" := Entry("Love gardening, caring for plants and nature", "Yêu thích trồng trọt, chăm sóc cây cối và thiên nhiên", "정원 가꾸기, 식물과 자연 돌보기를 좋아함")
    ]

  /** The "Projects Section" group of keys. */
  const ProjectsTexts: map<string, Entry> :=
    map[
      "projects.title" := Entry("My Projects", "Dự án của tôi", "내 프로젝트"),
      "projects.subtitle" := Entry("Some of my recent work and personal projects", "Một số dự án gần đây và dự án cá nhân của tôi", "최근 작업과 개인 프로젝트 중 일부"),
      "projects.view.live" := Entry("View Live", "Xem trực tiếp", "라이브 보기"),
      "projects.view.source" := Entry("View Source", "Xem mã nguồn", "소스 보기"),
      "projects.source.private" := Entry("Source code is private", "Mã nguồn là bảo mật", "소스 코드는 비공개입니다"),
      "projects.filter.all" := Entry("All", "Tất cả", "전체"),
      "projects.filter.frontend" := Entry("Frontend", "Frontend", "프론트엔드"),
      "projects.filter.backend" := Entry("Backend", "Backend", "백엔드"),
      "projects.filter.fullstack" := Entry("Full-Stack", "Full-Stack", "풀스택"),
      "projects.preview.loading" := Entry("Loading preview…", "Đang tải xem trước…", "미리보기 로딩 중…"),
      "projects.preview.unavailable" := Entry("Preview not available", "Không có bản xem trước", "미리보기를 사용할 수 없습니다"),
      "projects.cta.text" := Entry("Interested in working together? Let's discuss your project!", "Quan tâm hợp tác? Hãy trao đổi về dự án của bạn!", "함께 작업하고 싶으신가요? 프로젝트에 대해 이야기해요!"),
      "projects.webStore.title" := Entry("Web Store", "Web Store", "웹 스토어"),
      "projects.webStore.description" := Entry("Web Store is a platform for selling products online", "Web Store là nền tảng bán hàng trực tuyến", "웹 스토어는 온라인으로 제품을 판매하는 플랫폼입니다"),
      "projects.salesManagement.title" := Entry("Sales Management", "Quản lý bán hàng", "판매 관리"),
      "projects.salesManagement.description" := Entry("Sales Management is a platform for managing sales", "Quản lý bán hàng là nền tảng quản lý bán hàng", "판매 관리는 판매를 관리하는 플랫폼입니다"),
      "projects.ciResearch.title" := Entry("CI Research Company Website", "Website Công ty Nghiên cứu CI", "CI 리서치 회사 웹사이트"),
      "projects.ciResearch.description" := Entry("Corporate website for CI Research with modern UI/UX", "Website doanh nghiệp cho CI Research với UI/UX hiện đại", "현대적인 UI/UX를 갖춘 CI 리서치 기업 웹사이트"),
      "projects.amazingTech.title" := Entry("Amazing Tech Interface", "Giao diện Công ty Công nghệ Amazing", "어메이징 테크 회사 인터페이스"),
      "projects.amazingTech.description" := Entry("Landing page interface with modular components", "Giao diện trang chủ với các component mô-đun", "모듈형 컴포넌트로 구성된 랜딩 페이지 인터페이스"),
      "projects.portfolio.title" := Entry("Portfolio Website", "Website Portfolio", "포트폴리오 웹사이트"),
      "projects.portfolio.description" := Entry("My personal portfolio built with React and TypeScript", "Portfolio cá nhân xây dựng với React và TypeScript", "React와 TypeScript로 만든 개인 포트폴리오"),
      "projects.maxius.title" := Entry("Maxius Frontend Test", "Maxius Frontend Test", "Maxius 프론트엔드 테스트"),
      "projects.maxius.description" := Entry("A frontend assessment featuring product listing, search and modern UI with Ant Design.", "Bài test frontend với danh sách sản phẩm, tìm kiếm và UI hiện đại dùng Ant Design.", "제품 목록, 검색 및 Ant Design 기반의 모던 UI를 포함한 프론트엔드 과제."),
      "projects.amanotes.title" := Entry("Amanotes Test Job", "Amanotes Test Job", "Amanotes 테스트 과제"),
      "projects.amanotes.description" := Entry("Music learning e-learning demo with search, filters, cart and AI assistant.", "Demo e-learning âm nhạc với tìm kiếm, bộ lọc, giỏ hàng và trợ lý AI.", "검색, 필터, 장바구니 및 AI 어시스턴트를 포함한 음악 e-러닝 데모."),
      "projects.ecommerce.title" := Entry("Ecommerce", "Ecommerce", "이커머스"),
      "common.prev" := Entry("Previous", "Trước", "이전"),
      "common.next" := Entry("Next", "Tiếp", "다음")
    ]

  /** The "Contact Section" group of keys. */
  const ContactTexts: map<string, Entry> :=
    map[
      "contact.title" := Entry("Get In Touch", "Liên hệ với tôi", "연락하기"),
      "contact.subtitle" := Entry("Feel free to reach out for collaborations or just a friendly hello", "Hãy liên hệ để hợp tác hoặc chỉ để chào hỏi", "협업이나 친근한 인사를 위해 언제든 연락하세요"),
      "contact.form.name" := Entry("Name", "Tên", "이름"),
      "contact.form.email" := Entry("Email", "Email", "이메일"),
      "contact.form.message" := Entry("Message", "Tin nhắn", "메시지"),
      "contact.form.send" := Entry("Send Message", "Gửi tin nhắn", "메시지 보내기")
    ]

  /** The "Common" group of keys. */
  const CommonTexts: map<string, Entry> :=
    map[
      "common.loading" := Entry("Loading...", "Đang tải...", "로딩 중..."),
      "common.error" := Entry("Error", "Lỗi", "오류"),
      "common.close" := Entry("Close", "Đóng", "닫기"),
      "common.open" := Entry("Open", "Mở", "열기")
    ]

  /** The translation table: every group, as one object literal. */
  const Translations: map<string, Entry> :=
    NavigationTexts + HeaderTexts + HomeTexts + SkillsTexts + ProjectsTexts + ContactTexts + CommonTexts

  /**
   * `translations[key]?.[language] || key`: the text of the key in the
   * language, unless the key is missing or its text is empty, in which case
   * the key itself.
   */
  function GetText(table: map<string, Entry>, key: string, l: Language): (r: string)
    ensures key in table && Pick(table[key], l) != "" ==> r == Pick(table[key], l)
    ensures key !in table ==> r == key
    ensures key in table && Pick(table[key], l) == "" ==> r == key
    ensures key != "" ==> r != ""
  {
    if key in table && Pick(table[key], l) != "" then Pick(table[key], l) else key
  }

  /** The storage key the preference is saved under. */
  const LanguageKey := "language"

  /**
   * The saved preference, read back: a language only when the saved text is
   * exactly one of the three codes.
   */
  function SavedLanguage(saved: Option<string>): (r: Option<Language>)
    ensures forall l: Language :: r == Some(l) <==> saved == Some(Code(l))
  {
    if saved == Some("en") then Some(En)
    else if saved == Some("vi") then Some(Vi)
    else if saved == Some("ko") then Some(Ko)
    else None
  }

  /**
   * The language guessed from the browser's language tag, compared in lower
   * case: a tag starting with "vi", else one starting with "ko", else English.
   */
  function BrowserLanguage(tag: string): (r: Language)
    ensures r == Vi <==> StartsWith(Lower(tag), "vi")
    ensures r == Ko <==> !StartsWith(Lower(tag), "vi") && StartsWith(Lower(tag), "ko")
    ensures r == En <==> !StartsWith(Lower(tag), "vi") && !StartsWith(Lower(tag), "ko")
  {
    var lower := Lower(tag);
    if StartsWith(lower, "vi") then Vi
    else if StartsWith(lower, "ko") then Ko
    else En
  }

  /** `getCurrentLanguage`: a valid saved preference wins over the browser. */
  function CurrentLanguage(saved: Option<string>, tag: string): (r: Language)
    ensures forall l: Language :: saved == Some(Code(l)) ==> r == l
    ensures SavedLanguage(saved) == None ==> r == BrowserLanguage(tag)
  {
    match SavedLanguage(saved)
    case Some(l) => l
    case None => BrowserLanguage(tag)
  }

  /** What the storage holds under the preference key. */
  function Saved(storage: map<string, string>): Option<string>
  {
    if LanguageKey in storage then Some(storage[LanguageKey]) else None
  }

  /** Whatever the browser says, saving a language makes it the current one. */
  lemma SetThenGet(storage: map<string, string>, l: Language, tag: string)
    ensures CurrentLanguage(Saved(storage[LanguageKey := Code(l)]), tag) == l
  {
  }

  /** The browser tag is compared without regard to case. */
  lemma {:induction false} BrowserLanguageIgnoresCase(tag: string)
    ensures BrowserLanguage(Lower(tag)) == BrowserLanguage(tag)
  {
    LowerIdempotent(tag);
  }

  /** A region suffix does not change the guess: "vi-VN" reads as "vi". */
  lemma {:induction false} RegionTag(l: Language, rest: string)
    ensures BrowserLanguage(Code(l) + rest) == l
  {
    LowerAppend(Code(l), rest);
    assert Lower(Code(l)) == Code(l);
    assert (Code(l) + rest)[..2] == Code(l);
  }

  /** A saved text other than the three codes, "EN" included, is ignored. */
  lemma UnknownSavedIgnored(saved: string, tag: string)
    requires saved != "en" && saved != "vi" && saved != "ko"
    ensures CurrentLanguage(Some(saved), tag) == BrowserLanguage(tag)
  {
  }

  /**
   * The browser's local storage and the window's event queue, as far as the
   * language preference uses them.
   */
  class LanguageStore {
    var storage: map<string, string>
    /** The `languageChanged` events dispatched, oldest first. */
    var events: seq<Language>

    constructor(initial: map<string, string>)
      ensures storage == initial && events == []
    {
      storage := initial;
      events := [];
    }

    /** `getCurrentLanguage`, with `navigator.language` passed in. */
    method GetCurrentLanguage(tag: string) returns (l: Language)
      ensures l == CurrentLanguage(Saved(storage), tag)
    {
      var saved: Option<string> := None;
      if LanguageKey in storage {
        saved := Some(storage[LanguageKey]);
      }
      if saved.Some? && saved.value in ["en", "vi", "ko"] {
        l := if saved.value == "en" then En else if saved.value == "vi" then Vi else Ko;
        return;
      }
      var browserLang := Lower(tag);
      if StartsWith(browserLang, "vi") {
        l := Vi;
      } else if StartsWith(browserLang, "ko") {
        l := Ko;
      } else {
        l := En;
      }
    }

    /** `setLanguage`: save the code and announce the change. */
    method SetLanguage(l: Language)
      modifies this
      ensures storage == old(storage)[LanguageKey := Code(l)]
      ensures events == old(events) + [l]
    {
      storage := storage[LanguageKey := Code(l)];
      events := events + [l];
    }
  }

  /** Setting a language and reading it back gives that language. */
  method SetThenGetCurrent(store: LanguageStore, l: Language, tag: string) returns (r: Language)
    modifies store
    ensures r == l
  {
    store.SetLanguage(l);
    r := store.GetCurrentLanguage(tag);
    SetThenGet(old(store.storage), l, tag);
  }
}
